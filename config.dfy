/**
 * The configuration values the web chat core reads. Loading, migrating and
 * writing the YAML file are not modelled: a ModConfig value is handed to
 * every operation that needs one.
 */
module Config {

  /** The three authentication modes: NONE, SIMPLE and LINKED. */
  datatype AuthMode = NoAuth | Simple | Linked

  datatype ModConfig = ModConfig(
    trustProxy: bool,
    authMode: AuthMode,
    webPassword: string,
    otpRateLimitSeconds: int,
    maxMessageLength: int,
    rateLimitMessagesPerMinute: int,
    favicon: string,
    defaultSound: string,
    soundPresets: seq<string>,
    enableProfanityFilter: bool,
    profanityList: seq<string>)
}
