/** The speech-service configuration constants (src/lib/tts-config.ts). */
module TtsConfig {
  /** `DEFAULT_VOICE_ID`. */
  const DefaultVoiceId: string := "1SM7GgM6IMuvQlz2BwM3"
  /** `ELEVEN_MODEL_ID`. */
  const ElevenModelId: string := "1SM7GgM6IMuvQlz2BwM3"
  /** `MAX_SAY_SECONDS`, the cap on spoken length. */
  const MaxSaySeconds: nat := 12
}
