/** The message classes: fixed fields, and buffers filled at an advancing position. */
module Messages {
  import opened Config
  import opened Bytes
  import opened Chunks
  import opened Codecs
  import opened Env
  import opened Memory

  class SimpleMessage {
    var code: byte

    constructor (code: byte)
      ensures this.code == code
    {
      this.code := code;
    }

    constructor Deserialize(buffer: bytes)
      requires |buffer| >= 1
      ensures code == buffer[0]
    {
      code := buffer[0];
    }

    method SetCode(code: byte)
      modifies this
      ensures this.code == code
    {
      this.code := code;
    }

    method Serialize(tail: bytes) returns (buffer: array<byte>)
      requires |tail| == MAX_PACKET_SIZE - 1
      ensures fresh(buffer) && buffer[..] == EncSimple(code, tail)
    {
      buffer := new byte[MAX_PACKET_SIZE];
      var position := Append(buffer, 0, [code]);
      position := Append(buffer, position, tail);
      assert buffer[..] == buffer[..position];
    }
  }

  class Delete {
    const code: byte
    const fileName: array<byte>

    constructor (name: Name)
      ensures code == DELETE_REQUEST && fileName[..] == Strncpy(name, FILE_NAME_LEN)
    {
      code := DELETE_REQUEST;
      fileName := new byte[FILE_NAME_LEN];
      new;
      CopyString(fileName, name);
    }

    constructor Deserialize(buffer: bytes)
      requires |buffer| == MAX_PACKET_SIZE
      ensures code == buffer[0] && fileName[..] == buffer[1..1 + FILE_NAME_LEN]
    {
      code := buffer[0];
      fileName := new byte[FILE_NAME_LEN];
      new;
      CopyTo(fileName, 0, buffer[1..1 + FILE_NAME_LEN]);
    }

    function FileName(): Name
      reads fileName
    {
      CString(fileName[..])
    }

    method Serialize(tail: bytes) returns (buffer: array<byte>)
      requires fileName.Length == FILE_NAME_LEN && |tail| == 35
      ensures fresh(buffer) && buffer[..] == [code] + fileName[..] + tail
    {
      buffer := new byte[MAX_PACKET_SIZE];
      var position := Append(buffer, 0, [code]);
      position := Append(buffer, position, fileName[..]);
      position := Append(buffer, position, tail);
      assert buffer[..] == buffer[..position];
    }
  }

  class DownloadM1 {
    const code: byte
    const fileName: array<byte>

    constructor (name: Name)
      ensures code == DOWNLOAD_REQUEST && fileName[..] == Strncpy(name, FILE_NAME_LEN)
    {
      code := DOWNLOAD_REQUEST;
      fileName := new byte[FILE_NAME_LEN];
      new;
      CopyString(fileName, name);
    }

    constructor Deserialize(buffer: bytes)
      requires |buffer| == MAX_PACKET_SIZE
      ensures code == buffer[0] && fileName[..] == buffer[1..1 + FILE_NAME_LEN]
    {
      code := buffer[0];
      fileName := new byte[FILE_NAME_LEN];
      new;
      CopyTo(fileName, 0, buffer[1..1 + FILE_NAME_LEN]);
    }

    function FileName(): Name
      reads fileName
    {
      CString(fileName[..])
    }

    method Serialize(tail: bytes) returns (buffer: array<byte>)
      requires fileName.Length == FILE_NAME_LEN && |tail| == 35
      ensures fresh(buffer) && buffer[..] == [code] + fileName[..] + tail
    {
      buffer := new byte[MAX_PACKET_SIZE];
      var position := Append(buffer, 0, [code]);
      position := Append(buffer, position, fileName[..]);
      position := Append(buffer, position, tail);
      assert buffer[..] == buffer[..position];
    }
  }

  class DownloadM2 {
    const code: byte
    const fileSize: u32

    constructor (code: byte, size: nat)
      ensures this.code == code && fileSize == AnnouncedDownload(size)
    {
      this.code := code;
      fileSize := size % U32_RANGE;
    }

    constructor Deserialize(buffer: bytes)
      requires |buffer| == 5
      ensures code == buffer[0] && fileSize == SizeAt(buffer, 1)
    {
      code := buffer[0];
      fileSize := FromLE32(buffer[1..5]);
    }

    method Serialize() returns (buffer: array<byte>)
      ensures fresh(buffer) && buffer[..] == EncSized(code, fileSize)
    {
      buffer := new byte[5];
      var position := Append(buffer, 0, [code]);
      position := Append(buffer, position, LE32(fileSize));
      assert buffer[..] == buffer[..position];
    }
  }

  class DownloadMi {
    const code: byte
    const chunk: array<byte>

    constructor (data: array<byte>, size: nat)
      requires size <= data.Length
      ensures code == DOWNLOAD_CHUNK && chunk[..] == data[..size]
    {
      code := DOWNLOAD_CHUNK;
      chunk := new byte[size];
      new;
      CopyTo(chunk, 0, data[..size]);
    }

    constructor Deserialize(buffer: bytes, size: nat)
      requires |buffer| == 1 + size
      ensures code == buffer[0] && chunk[..] == buffer[1..]
    {
      code := buffer[0];
      chunk := new byte[size];
      new;
      CopyTo(chunk, 0, buffer[1..1 + size]);
    }

    method Serialize() returns (buffer: array<byte>)
      ensures fresh(buffer) && buffer[..] == EncPayload(code, chunk[..])
    {
      buffer := new byte[1 + chunk.Length];
      var position := Append(buffer, 0, [code]);
      position := Append(buffer, position, chunk[..]);
      assert buffer[..] == buffer[..position];
    }
  }

  class UploadM1 {
    const code: byte
    const fileName: array<byte>
    const fileSize: u32

    /** Four billion bytes and more are announced as 0. */
    constructor (name: Name, size: nat)
      ensures code == UPLOAD_REQUEST && fileName[..] == Strncpy(name, FILE_NAME_LEN) && fileSize == AnnouncedUpload(size)
    {
      code := UPLOAD_REQUEST;
      fileName := new byte[FILE_NAME_LEN];
      fileSize := if size < 4 * 1000 * 1000 * 1000 then size else 0;
      new;
      CopyString(fileName, name);
    }

    constructor Deserialize(buffer: bytes)
      requires |buffer| == MAX_PACKET_SIZE
      ensures code == buffer[0] && fileName[..] == buffer[1..1 + FILE_NAME_LEN] && fileSize == SizeAt(buffer, 36)
    {
      code := buffer[0];
      fileName := new byte[FILE_NAME_LEN];
      fileSize := FromLE32(buffer[1 + FILE_NAME_LEN..1 + FILE_NAME_LEN + 4]);
      new;
      CopyTo(fileName, 0, buffer[1..1 + FILE_NAME_LEN]);
    }

    function FileName(): Name
      reads fileName
    {
      CString(fileName[..])
    }

    method Serialize(tail: bytes) returns (buffer: array<byte>)
      requires fileName.Length == FILE_NAME_LEN && |tail| == 31
      ensures fresh(buffer) && buffer[..] == [code] + fileName[..] + LE32(fileSize) + tail
    {
      buffer := new byte[MAX_PACKET_SIZE];
      var position := Append(buffer, 0, [code]);
      position := Append(buffer, position, fileName[..]);
      position := Append(buffer, position, LE32(fileSize));
      position := Append(buffer, position, tail);
      assert buffer[..] == buffer[..position];
    }
  }

  class UploadMi {
    const code: byte
    const chunk: array<byte>

    constructor (data: array<byte>, size: nat)
      requires size <= data.Length
      ensures code == UPLOAD_CHUNK && chunk[..] == data[..size]
    {
      code := UPLOAD_CHUNK;
      chunk := new byte[size];
      new;
      CopyTo(chunk, 0, data[..size]);
    }

    constructor Deserialize(buffer: bytes, size: nat)
      requires |buffer| == 1 + size
      ensures code == buffer[0] && chunk[..] == buffer[1..]
    {
      code := buffer[0];
      chunk := new byte[size];
      new;
      CopyTo(chunk, 0, buffer[1..1 + size]);
    }

    method Serialize() returns (buffer: array<byte>)
      ensures fresh(buffer) && buffer[..] == EncPayload(code, chunk[..])
    {
      buffer := new byte[1 + chunk.Length];
      var position := Append(buffer, 0, [code]);
      position := Append(buffer, position, chunk[..]);
      assert buffer[..] == buffer[..position];
    }
  }

  class ListM2 {
    const code: byte
    const listSize: u32

    constructor (size: u32)
      ensures code == LIST_ACK && listSize == size
    {
      code := LIST_ACK;
      listSize := size;
    }

    constructor Deserialize(buffer: bytes)
      requires |buffer| == 5
      ensures code == buffer[0] && listSize == SizeAt(buffer, 1)
    {
      code := buffer[0];
      listSize := FromLE32(buffer[1..5]);
    }

    /** The buffer is a whole packet; only its first five bytes are message. */
    method Serialize() returns (buffer: array<byte>)
      ensures fresh(buffer) && buffer.Length == MAX_PACKET_SIZE && buffer[..5] == EncSized(code, listSize)
    {
      buffer := new byte[MAX_PACKET_SIZE];
      var position := Append(buffer, 0, [code]);
      position := Append(buffer, position, LE32(listSize));
    }
  }

  class ListM3 {
    const code: byte
    const fileList: array<byte>

    constructor (size: u32, files: bytes)
      requires size <= |files|
      ensures code == LIST_RESPONSE && fileList[..] == files[..size]
    {
      code := LIST_RESPONSE;
      fileList := new byte[size];
      new;
      CopyTo(fileList, 0, files[..size]);
    }

    constructor Deserialize(buffer: bytes, size: u32)
      requires |buffer| == 1 + size
      ensures code == buffer[0] && fileList[..] == buffer[1..]
    {
      code := buffer[0];
      fileList := new byte[size];
      new;
      CopyTo(fileList, 0, buffer[1..1 + size]);
    }

    method Serialize() returns (buffer: array<byte>)
      ensures fresh(buffer) && buffer[..] == EncPayload(code, fileList[..])
    {
      buffer := new byte[1 + fileList.Length];
      var position := Append(buffer, 0, [code]);
      position := Append(buffer, position, fileList[..]);
      assert buffer[..] == buffer[..position];
    }
  }

  class Rename {
    const code: byte
    const oldField: array<byte>
    const newField: array<byte>

    constructor (oldName: Name, newName: Name)
      ensures code == RENAME_REQUEST
      ensures oldField[..] == Strncpy(oldName, FILE_NAME_LEN) && newField[..] == Strncpy(newName, FILE_NAME_LEN)
    {
      code := RENAME_REQUEST;
      oldField := new byte[FILE_NAME_LEN];
      newField := new byte[FILE_NAME_LEN];
      new;
      CopyString(oldField, oldName);
      CopyString(newField, newName);
    }

    constructor Deserialize(buffer: bytes)
      requires |buffer| == MAX_PACKET_SIZE
      ensures code == buffer[0] && oldField[..] == buffer[1..1 + FILE_NAME_LEN] && newField[..] == buffer[1 + FILE_NAME_LEN..1 + 2 * FILE_NAME_LEN]
    {
      code := buffer[0];
      oldField := new byte[FILE_NAME_LEN];
      newField := new byte[FILE_NAME_LEN];
      new;
      CopyTo(oldField, 0, buffer[1..1 + FILE_NAME_LEN]);
      CopyTo(newField, 0, buffer[1 + FILE_NAME_LEN..1 + 2 * FILE_NAME_LEN]);
    }

    function OldName(): Name
      reads oldField
    {
      CString(oldField[..])
    }

    function NewName(): Name
      reads newField
    {
      CString(newField[..])
    }

    method Serialize() returns (buffer: array<byte>)
      requires oldField.Length == newField.Length == FILE_NAME_LEN
      ensures fresh(buffer) && buffer[..] == [code] + oldField[..] + newField[..]
    {
      buffer := new byte[MAX_PACKET_SIZE];
      var position := Append(buffer, 0, [code]);
      position := Append(buffer, position, oldField[..]);
      position := Append(buffer, position, newField[..]);
      assert buffer[..] == buffer[..position];
    }
  }

  class AuthenticationM1 {
    const code: byte
    const key: array<byte>
    const keyLen: u32
    const userName: array<byte>

    constructor (ephemeral: bytes, user: Name)
      requires |ephemeral| <= EPHEMERAL_KEY_LEN
      ensures code == AUTHENTICATION_REQUEST && key[..] == PadTo(ephemeral, EPHEMERAL_KEY_LEN) && keyLen == |ephemeral|
      ensures userName[..] == Strncpy(user, USERNAME_LEN)
    {
      code := AUTHENTICATION_REQUEST;
      key := new byte[EPHEMERAL_KEY_LEN];
      keyLen := |ephemeral|;
      userName := new byte[USERNAME_LEN];
      new;
      CopyPadded(key, ephemeral);
      CopyString(userName, user);
    }

    constructor Deserialize(buffer: bytes)
      requires |buffer| == AUTH_M1_LEN
      ensures code == buffer[0] && Key() == AuthM1Key(buffer) && UserName() == AuthM1User(buffer)
    {
      code := buffer[0];
      key := new byte[EPHEMERAL_KEY_LEN];
      keyLen := FromBE32(buffer[1025..1029]);
      userName := new byte[USERNAME_LEN];
      new;
      CopyTo(key, 0, buffer[1..1025]);
      CopyTo(userName, 0, buffer[1029..1029 + USERNAME_LEN]);
      assert key[..] == buffer[1..1025] && userName[..] == buffer[1029..];
      assert keyLen <= 1024 ==> buffer[1..1025][..keyLen] == buffer[1..1 + keyLen];
    }

    /** The announced bytes of the key field. */
    function Key(): bytes
      reads key
    {
      if keyLen <= key.Length then key[..keyLen] else key[..]
    }

    function UserName(): Name
      reads userName
    {
      CString(userName[..])
    }

    method Serialize() returns (buffer: array<byte>)
      requires key.Length == EPHEMERAL_KEY_LEN && userName.Length == USERNAME_LEN
      ensures fresh(buffer) && buffer[..] == [code] + key[..] + BE32(keyLen) + userName[..]
    {
      buffer := new byte[AUTH_M1_LEN];
      var position := Append(buffer, 0, [code]);
      position := Append(buffer, position, key[..]);
      position := Append(buffer, position, BE32(keyLen));
      position := Append(buffer, position, userName[..]);
      assert buffer[..] == buffer[..position];
    }
  }

  class AuthenticationM3 {
    const key: array<byte>
    const keyLen: u32
    const iv: bytes
    const aad: bytes
    const tag: bytes
    const signature: bytes
    const certificate: array<byte>
    const certificateLen: u32

    constructor (ephemeral: bytes, iv: bytes, aad: bytes, tag: bytes, signature: bytes, serialized: bytes)
      requires |ephemeral| <= EPHEMERAL_KEY_LEN && |serialized| <= MAX_SERIALIZED_CERTIFICATE_LEN
      ensures key[..] == PadTo(ephemeral, EPHEMERAL_KEY_LEN) && keyLen == |ephemeral|
      ensures this.iv == iv && this.aad == aad && this.tag == tag && this.signature == signature
      ensures certificate[..] == PadTo(serialized, MAX_SERIALIZED_CERTIFICATE_LEN) && certificateLen == |serialized|
    {
      key := new byte[EPHEMERAL_KEY_LEN];
      keyLen := |ephemeral|;
      this.iv := iv;
      this.aad := aad;
      this.tag := tag;
      this.signature := signature;
      certificate := new byte[MAX_SERIALIZED_CERTIFICATE_LEN];
      certificateLen := |serialized|;
      new;
      CopyPadded(key, ephemeral);
      CopyPadded(certificate, serialized);
    }

    constructor Deserialize(buffer: bytes)
      requires |buffer| == AUTH_M3_LEN
      ensures Key() == AuthM3Key(buffer) && Certificate() == AuthM3Cert(buffer)
      ensures iv == buffer[1028..1040] && aad == buffer[1040..1044] && tag == buffer[1044..1060] && signature == buffer[1060..1188]
    {
      key := new byte[EPHEMERAL_KEY_LEN];
      keyLen := FromBE32(buffer[1024..1028]);
      iv := buffer[1028..1040];
      aad := buffer[1040..1044];
      tag := buffer[1044..1060];
      signature := buffer[1060..1188];
      certificate := new byte[MAX_SERIALIZED_CERTIFICATE_LEN];
      certificateLen := FromBE32(buffer[2688..2692]);
      new;
      CopyTo(key, 0, buffer[..1024]);
      CopyTo(certificate, 0, buffer[1188..2688]);
      assert key[..] == buffer[0..1024] && certificate[..] == buffer[1188..2688];
      assert keyLen <= 1024 ==> buffer[0..1024][..keyLen] == buffer[0..keyLen];
      assert certificateLen <= 1500 ==> buffer[1188..2688][..certificateLen] == buffer[1188..1188 + certificateLen];
    }

    function Key(): bytes
      reads key
    {
      if keyLen <= key.Length then key[..keyLen] else key[..]
    }

    function Certificate(): bytes
      reads certificate
    {
      if certificateLen <= certificate.Length then certificate[..certificateLen] else certificate[..]
    }

    /** The counter in the AAD, copied in host order. */
    predicate CheckCounter(counter: u32)
      requires |aad| == AAD_LEN
    {
      FromLE32(aad) == counter
    }

    method Serialize() returns (buffer: array<byte>)
      requires key.Length == EPHEMERAL_KEY_LEN && certificate.Length == MAX_SERIALIZED_CERTIFICATE_LEN
      requires |iv| == IV_LEN && |aad| == AAD_LEN && |tag| == AES_TAG_LEN && |signature| == ENCRYPTED_SIGNATURE_LEN
      ensures fresh(buffer)
      ensures buffer[..] == key[..] + BE32(keyLen) + iv + aad + tag + signature + certificate[..] + BE32(certificateLen)
    {
      buffer := new byte[AUTH_M3_LEN];
      var position := Append(buffer, 0, key[..]);
      position := Append(buffer, position, BE32(keyLen));
      position := Append(buffer, position, iv);
      position := Append(buffer, position, aad);
      position := Append(buffer, position, tag);
      position := Append(buffer, position, signature);
      position := Append(buffer, position, certificate[..]);
      position := Append(buffer, position, BE32(certificateLen));
      assert buffer[..] == buffer[..position];
    }
  }

  class AuthenticationM4 {
    const iv: bytes
    const aad: bytes
    const tag: bytes
    const signature: bytes

    constructor (iv: bytes, aad: bytes, tag: bytes, signature: bytes)
      ensures this.iv == iv && this.aad == aad && this.tag == tag && this.signature == signature
    {
      this.iv := iv;
      this.aad := aad;
      this.tag := tag;
      this.signature := signature;
    }

    constructor Deserialize(buffer: bytes)
      requires |buffer| == AUTH_M4_LEN
      ensures iv == buffer[..12] && aad == buffer[12..16] && tag == buffer[16..32] && signature == buffer[32..]
    {
      iv := buffer[..12];
      aad := buffer[12..16];
      tag := buffer[16..32];
      signature := buffer[32..160];
    }

    predicate CheckCounter(counter: u32)
      requires |aad| == AAD_LEN
    {
      FromLE32(aad) == counter
    }

    method Serialize() returns (buffer: array<byte>)
      requires |iv| == IV_LEN && |aad| == AAD_LEN && |tag| == AES_TAG_LEN && |signature| == ENCRYPTED_SIGNATURE_LEN
      ensures fresh(buffer) && buffer[..] == EncAuthM4(iv, aad, tag, signature)
    {
      buffer := new byte[AUTH_M4_LEN];
      var position := Append(buffer, 0, iv);
      position := Append(buffer, position, aad);
      position := Append(buffer, position, tag);
      position := Append(buffer, position, signature);
      assert buffer[..] == buffer[..position];
    }
  }

  /** The envelope of every sealed message. */
  class Generic {
    var iv: bytes
    var aad: bytes
    var tag: bytes
    var ciphertext: bytes

    constructor (counter: u32)
      ensures aad == BE32(counter)
    {
      iv, tag, ciphertext := [], [], [];
      aad := BE32(counter);
    }

    constructor Deserialize(buffer: bytes, length: nat)
      requires |buffer| == ENVELOPE_LEN + length
      ensures iv == buffer[..12] && aad == buffer[12..16] && tag == buffer[16..32] && ciphertext == buffer[32..]
    {
      var position := 0;
      iv := buffer[..position + IV_LEN];
      position := position + IV_LEN;
      aad := buffer[position..position + AAD_LEN];
      position := position + AAD_LEN;
      tag := buffer[position..position + AES_TAG_LEN];
      position := position + AES_TAG_LEN;
      ciphertext := buffer[position..position + length];
    }

    /** Fails when the length, an int, is negative. */
    method Encrypt(env: Env, key: bytes, freshIv: bytes, plaintext: bytes, length: int) returns (code: int)
      requires length <= |plaintext|
      modifies this
      ensures aad == old(aad) && (code == -1 <==> length < 0)
      ensures length >= 0 ==> iv == freshIv && Sealed(ciphertext, tag) == env.Seal(key, freshIv, aad, plaintext[..length])
    {
      if length < 0 {
        return -1;
      }
      code := length;
      var sealed := env.Seal(key, freshIv, aad, plaintext[..length]);
      ciphertext, tag := sealed.text, sealed.tag;
      iv := freshIv;
    }

    method Decrypt(env: Env, key: bytes) returns (plaintext: Option<bytes>)
      ensures plaintext == env.Open(key, iv, aad, Sealed(ciphertext, tag))
    {
      plaintext := env.Open(key, iv, aad, Sealed(ciphertext, tag));
    }

    method Serialize() returns (buffer: array<byte>)
      requires |iv| == IV_LEN && |aad| == AAD_LEN && |tag| == AES_TAG_LEN
      ensures fresh(buffer) && buffer[..] == iv + aad + tag + ciphertext
    {
      buffer := new byte[ENVELOPE_LEN + |ciphertext|];
      var position := Append(buffer, 0, iv);
      position := Append(buffer, position, aad);
      position := Append(buffer, position, tag);
      position := Append(buffer, position, ciphertext);
      assert buffer[..] == buffer[..position];
    }

    function Counter(): u32
      requires |aad| == AAD_LEN
      reads this
    {
      FromBE32(aad)
    }
  }

  /** Sealing a plaintext under a counter and writing the envelope out gives the frame of the protocol. */
  method SealFrame(env: Env, key: bytes, iv: bytes, counter: u32, plaintext: bytes) returns (buffer: array<byte>)
    requires SealOpens(env) && |iv| == IV_LEN && |plaintext| <= MAX_INT
    ensures fresh(buffer) && buffer[..] == Wrap(env, key, iv, counter, plaintext) && buffer.Length == ENVELOPE_LEN + |plaintext|
  {
    var message := new Generic(counter);
    var code := message.Encrypt(env, key, iv, plaintext, AsInt(|plaintext|));
    assert plaintext[..|plaintext|] == plaintext;
    var sealed := env.Seal(key, iv, BE32(counter), plaintext);
    assert |sealed.tag| == AES_TAG_LEN && |sealed.text| == |plaintext|;
    buffer := message.Serialize();
  }

  /** Cutting a frame up again and opening it. */
  method OpenFrame(env: Env, key: bytes, buffer: array<byte>, length: nat) returns (plaintext: Option<bytes>)
    requires buffer.Length == ENVELOPE_LEN + length
    ensures plaintext == Unwrap(env, key, buffer[..])
  {
    var message := new Generic.Deserialize(buffer[..], length);
    plaintext := message.Decrypt(env, key);
  }

  // ---- Building a message and writing it out; reading one back ----

  method WriteSimple(code: byte, tail: bytes) returns (text: bytes)
    requires |tail| == MAX_PACKET_SIZE - 1
    ensures text == EncSimple(code, tail)
  {
    var message := new SimpleMessage(code);
    var buffer := message.Serialize(tail);
    text := buffer[..];
  }

  method ReadSimple(text: bytes) returns (code: byte)
    requires |text| >= 1
    ensures code == text[0]
  {
    var message := new SimpleMessage.Deserialize(text);
    code := message.code;
  }

  method WriteDelete(name: Name, tail: bytes) returns (text: bytes)
    requires |tail| == 35
    ensures text == EncNamed(DELETE_REQUEST, name, tail)
  {
    var message := new Delete(name);
    var buffer := message.Serialize(tail);
    text := buffer[..];
  }

  method ReadDelete(text: bytes) returns (name: Name)
    requires |text| == MAX_PACKET_SIZE
    ensures name == NameAt(text, 1)
  {
    var message := new Delete.Deserialize(text);
    name := message.FileName();
  }

  method WriteDownloadM1(name: Name, tail: bytes) returns (text: bytes)
    requires |tail| == 35
    ensures text == EncNamed(DOWNLOAD_REQUEST, name, tail)
  {
    var message := new DownloadM1(name);
    var buffer := message.Serialize(tail);
    text := buffer[..];
  }

  method ReadDownloadM1(text: bytes) returns (name: Name)
    requires |text| == MAX_PACKET_SIZE
    ensures name == NameAt(text, 1)
  {
    var message := new DownloadM1.Deserialize(text);
    name := message.FileName();
  }

  method WriteDownloadM2(code: byte, size: nat) returns (text: bytes)
    ensures text == EncSized(code, AnnouncedDownload(size))
  {
    var message := new DownloadM2(code, size);
    var buffer := message.Serialize();
    text := buffer[..];
  }

  method ReadDownloadM2(text: bytes) returns (code: byte, size: u32)
    requires |text| == 5
    ensures code == text[0] && size == SizeAt(text, 1)
  {
    var message := new DownloadM2.Deserialize(text);
    code, size := message.code, message.fileSize;
  }

  method WriteDownloadMi(data: array<byte>, size: nat) returns (text: bytes)
    requires size <= data.Length
    ensures text == EncPayload(DOWNLOAD_CHUNK, data[..size])
  {
    var message := new DownloadMi(data, size);
    var buffer := message.Serialize();
    text := buffer[..];
  }

  method ReadDownloadMi(text: bytes, size: nat) returns (code: byte, chunk: array<byte>)
    requires |text| == 1 + size
    ensures code == text[0] && fresh(chunk) && chunk[..] == text[1..]
  {
    var message := new DownloadMi.Deserialize(text, size);
    code := message.code;
    chunk := new byte[size];
    CopyTo(chunk, 0, message.chunk[..]);
  }

  method WriteUploadM1(name: Name, size: nat, tail: bytes) returns (text: bytes)
    requires |tail| == 31
    ensures text == EncUpload(name, AnnouncedUpload(size), tail)
  {
    var message := new UploadM1(name, size);
    var buffer := message.Serialize(tail);
    text := buffer[..];
  }

  method ReadUploadM1(text: bytes) returns (name: Name, size: u32)
    requires |text| == MAX_PACKET_SIZE
    ensures name == NameAt(text, 1) && size == SizeAt(text, 36)
  {
    var message := new UploadM1.Deserialize(text);
    name, size := message.FileName(), message.fileSize;
  }

  method WriteUploadMi(data: array<byte>, size: nat) returns (text: bytes)
    requires size <= data.Length
    ensures text == EncPayload(UPLOAD_CHUNK, data[..size])
  {
    var message := new UploadMi(data, size);
    var buffer := message.Serialize();
    text := buffer[..];
  }

  method ReadUploadMi(text: bytes, size: nat) returns (chunk: array<byte>)
    requires |text| == 1 + size
    ensures fresh(chunk) && chunk[..] == text[1..]
  {
    var message := new UploadMi.Deserialize(text, size);
    chunk := new byte[size];
    CopyTo(chunk, 0, message.chunk[..]);
  }

  method WriteListM2(size: u32) returns (text: bytes)
    ensures text == EncSized(LIST_ACK, size)
  {
    var message := new ListM2(size);
    var buffer := message.Serialize();
    text := buffer[..5];
  }

  method ReadListM2(text: bytes) returns (code: byte, size: u32)
    requires |text| == 5
    ensures code == text[0] && size == SizeAt(text, 1)
  {
    var message := new ListM2.Deserialize(text);
    code, size := message.code, message.listSize;
  }

  method WriteListM3(size: u32, files: bytes) returns (text: bytes)
    requires size <= |files|
    ensures text == EncPayload(LIST_RESPONSE, files[..size])
  {
    var message := new ListM3(size, files);
    var buffer := message.Serialize();
    text := buffer[..];
  }

  method ReadListM3(text: bytes, size: u32) returns (code: byte, files: bytes)
    requires |text| == 1 + size
    ensures code == text[0] && files == text[1..]
  {
    var message := new ListM3.Deserialize(text, size);
    code, files := message.code, message.fileList[..];
  }

  method WriteRename(oldName: Name, newName: Name) returns (text: bytes)
    ensures text == EncRename(oldName, newName)
  {
    var message := new Rename(oldName, newName);
    var buffer := message.Serialize();
    text := buffer[..];
  }

  method ReadRename(text: bytes) returns (oldName: Name, newName: Name)
    requires |text| == MAX_PACKET_SIZE
    ensures oldName == NameAt(text, 1) && newName == NameAt(text, 36)
  {
    var message := new Rename.Deserialize(text);
    oldName, newName := message.OldName(), message.NewName();
  }

  method WriteM1(ephemeral: bytes, user: Name) returns (buffer: array<byte>)
    requires |ephemeral| <= EPHEMERAL_KEY_LEN
    ensures fresh(buffer) && buffer[..] == EncAuthM1(ephemeral, user)
  {
    var message := new AuthenticationM1(ephemeral, user);
    buffer := message.Serialize();
  }

  method WriteM3(ephemeral: bytes, iv: bytes, aad: bytes, tag: bytes, signature: bytes, serialized: bytes) returns (buffer: array<byte>)
    requires |ephemeral| <= EPHEMERAL_KEY_LEN && |serialized| <= MAX_SERIALIZED_CERTIFICATE_LEN
    requires |iv| == IV_LEN && |aad| == AAD_LEN && |tag| == AES_TAG_LEN && |signature| == ENCRYPTED_SIGNATURE_LEN
    ensures fresh(buffer) && buffer[..] == EncAuthM3(ephemeral, iv, aad, tag, signature, serialized)
  {
    hide PadTo, BE32;
    var message := new AuthenticationM3(ephemeral, iv, aad, tag, signature, serialized);
    assert message.key.Length == |message.key[..]| && message.certificate.Length == |message.certificate[..]|;
    buffer := message.Serialize();
  }

  method WriteM4(iv: bytes, aad: bytes, tag: bytes, signature: bytes) returns (buffer: array<byte>)
    requires |iv| == IV_LEN && |aad| == AAD_LEN && |tag| == AES_TAG_LEN && |signature| == ENCRYPTED_SIGNATURE_LEN
    ensures fresh(buffer) && buffer[..] == EncAuthM4(iv, aad, tag, signature)
  {
    var message := new AuthenticationM4(iv, aad, tag, signature);
    buffer := message.Serialize();
  }
}
