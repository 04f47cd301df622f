/**
 * The settings the core reads and the error outcomes it raises.
 *
 * The settings object itself (environment loading) is not part of this model:
 * every value the core reads from it is a field of `Settings`, and every proof
 * holds for all values of those fields.
 */
module Config {

  /** OTP_LENGTH, OTP_EXPIRE_MINUTES, OTP_MAX_ATTEMPTS, JWT_ACCESS_TOKEN_EXPIRE_MINUTES. */
  datatype Settings = Settings(
    otpLength: int,
    otpExpireMinutes: int,
    otpMaxAttempts: int,
    jwtExpireMinutes: int)

  /** Time is counted in seconds; the settings count minutes. */
  const SecondsPerMinute: int := 60

  /**
   * How a request fails: an HTTPException with its status code and detail,
   * or an exception the services do not catch (the application turns it into
   * a 500 envelope).
   */
  datatype Failure = HttpError(status: nat, detail: string) | Unhandled(exception: string)

  const BadRequest: nat := 400
  const Unauthorized: nat := 401
  const Forbidden: nat := 403
  const NotFound: nat := 404
  const InternalServerError: nat := 500
}
