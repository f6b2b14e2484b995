/**
 The chat server's lengths (ChattingServerConfig.h).
 */
module ChatConfig {
  const MSG_MAX_LEN := 800
  const NICKNAME_LEN := 20
  const TOKEN_LEN := 20
}
