/** Sizes and codes shared by both parties (src/utils/Config.h, src/messages/CodesManager.h). */
module Config {

  newtype byte = x: int | 0 <= x < 256
  type bytes = seq<byte>
  type Name = bytes
  type u32 = x: int | 0 <= x < 0x1_0000_0000

  const U32_RANGE := 0x1_0000_0000
  const MAX_INT := 0x7fff_ffff
  const MAX_COUNTER_VALUE: u32 := 0xffff_ffff

  const FILE_NAME_LEN := 35
  const USERNAME_LEN := 35
  const MAX_PACKET_SIZE := 71
  const AES_TAG_LEN := 16
  const AES_KEY_LEN := 16
  const AAD_LEN := 4
  const IV_LEN := 12
  const ENVELOPE_LEN := 32
  const CHUNK_SIZE := 1_000_000
  const MAX_FILE_SIZE := 4_000_000_000
  const EPHEMERAL_KEY_LEN := 1024
  const ENCRYPTED_SIGNATURE_LEN := 128
  const MAX_SERIALIZED_CERTIFICATE_LEN := 1500
  const AUTH_M1_LEN := 1064
  const AUTH_M3_LEN := 2692
  const AUTH_M4_LEN := 160

  // Codes that travel in the first byte of a plaintext.
  const ACK: byte := 0
  const NACK: byte := 1
  const AUTHENTICATION_REQUEST: byte := 2
  const UPLOAD_REQUEST: byte := 3
  const UPLOAD_CHUNK: byte := 4
  const DOWNLOAD_REQUEST: byte := 5
  const DOWNLOAD_ACK: byte := 6
  const DOWNLOAD_CHUNK: byte := 7
  const DELETE_REQUEST: byte := 8
  const DELETE_ASK: byte := 9
  const DELETE_CONFIRM: byte := 10
  const LIST_REQUEST: byte := 11
  const LIST_ACK: byte := 12
  const LIST_RESPONSE: byte := 13
  const RENAME_REQUEST: byte := 14
  const LOGOUT_REQUEST: byte := 15
  const NO_DELETE_CONFIRM_CODE: byte := 16
  const FILE_NOT_FOUND_CODE: byte := 19
  const RENAME_NOT_FOUND_CODE: byte := 33
  const RENAME_EXISTS_CODE: byte := 32

  // Values of the Error and Return enumerations.
  const USERNAME_NOT_FOUND := 17
  const FILENAME_ALREADY_EXISTS := 18
  const FILENAME_NOT_FOUND := 20
  const SUCCESS := 22
  const AUTHENTICATION_FAILURE := 24
  const ENCRYPTION_FAILURE := 25
  const RECEIVE_FAILURE := 27
  const DECRYPTION_FAILURE := 28
  const WRONG_COUNTER := 29
  const WRONG_MSG_CODE := 30
  const WRONG_PATH := 31
  const FILE_ALREADY_EXISTS := 32
  const FILE_NOT_FOUND := 33
  const WRONG_FILE_SIZE := 36
  const NO_DELETE_CONFIRM := 37
  const RENAME_FAILURE := 38

  datatype Option<+T> = None | Some(value: T)
}
