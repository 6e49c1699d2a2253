/**
 * What the handlers take from the process rather than from the request: the
 * JWT signer, the SHA-256 primitive, zod's email test and whether
 * NODE_ENV is 'production'.
 */
module Server {
  import Jwt
  import PasswordHash

  datatype Config = Config(
    signer: Jwt.Signer,
    sha: PasswordHash.Sha256,
    isEmail: string -> bool,
    production: bool)
}
