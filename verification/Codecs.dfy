/** The plaintext layouts of src/messages, as functions on byte sequences. */
module Codecs {
  import opened Config
  import opened Bytes

  /** FileManager::isStringValid: the whitelist, the length bound and the reserved names. */
  predicate Whitelisted(b: byte) {
    || 97 <= b <= 122 || 65 <= b <= 90 || 48 <= b <= 57   // letters and digits
    || b == 95 || b == 45 || b == 46 || b == 64           // _ - . @
  }

  predicate ValidName(s: Name) {
    && (forall i :: 0 <= i < |s| ==> Whitelisted(s[i]))
    && s != [] && |s| < FILE_NAME_LEN
    && s != [46] && s != [46, 46]
  }

  function EncSimple(code: byte, tail: bytes): (r: bytes)
    ensures |r| == 1 + |tail| && r[0] == code
  {
    [code] + tail
  }

  /** Delete and DownloadM1: code, name field, random tail. */
  function EncNamed(code: byte, name: Name, tail: bytes): (r: bytes)
    ensures |r| == 36 + |tail| && r[0] == code
  {
    [code] + Strncpy(name, FILE_NAME_LEN) + tail
  }

  function EncUpload(name: Name, size: u32, tail: bytes): (r: bytes)
    ensures |r| == 40 + |tail| && r[0] == UPLOAD_REQUEST
  {
    [UPLOAD_REQUEST] + Strncpy(name, FILE_NAME_LEN) + LE32(size) + tail
  }

  function EncRename(oldName: Name, newName: Name): (r: bytes)
    ensures |r| == MAX_PACKET_SIZE && r[0] == RENAME_REQUEST
  {
    [RENAME_REQUEST] + Strncpy(oldName, FILE_NAME_LEN) + Strncpy(newName, FILE_NAME_LEN)
  }

  /** ListM2 and DownloadM2: code and a 32-bit size in host order. */
  function EncSized(code: byte, size: u32): (r: bytes)
    ensures |r| == 5 && r[0] == code
  {
    [code] + LE32(size)
  }

  /** ListM3, DownloadMi and UploadMi: code and a payload. */
  function EncPayload(code: byte, payload: bytes): (r: bytes)
    ensures |r| == 1 + |payload| && r[0] == code
  {
    [code] + payload
  }

  function NameAt(plaintext: bytes, at: nat): Name
    requires at + FILE_NAME_LEN <= |plaintext|
  {
    CString(plaintext[at..at + FILE_NAME_LEN])
  }

  function SizeAt(plaintext: bytes, at: nat): u32
    requires at + 4 <= |plaintext|
  {
    FromLE32(plaintext[at..at + 4])
  }

  lemma ValidNameSurvives(s: Name)
    requires ValidName(s)
    ensures CString(Strncpy(s, FILE_NAME_LEN)) == s
  {
    NameSurvives(s, FILE_NAME_LEN);
  }

  lemma NamedRoundTrip(code: byte, name: Name, tail: bytes)
    requires ValidName(name)
    ensures NameAt(EncNamed(code, name, tail), 1) == name
  {
    ValidNameSurvives(name);
    assert EncNamed(code, name, tail)[1..36] == Strncpy(name, FILE_NAME_LEN);
  }

  lemma UploadRoundTrip(name: Name, size: u32, tail: bytes)
    requires ValidName(name)
    ensures NameAt(EncUpload(name, size, tail), 1) == name
    ensures SizeAt(EncUpload(name, size, tail), 36) == size
  {
    ValidNameSurvives(name);
    LE32RoundTrip(size);
    assert EncUpload(name, size, tail)[1..36] == Strncpy(name, FILE_NAME_LEN);
    assert EncUpload(name, size, tail)[36..40] == LE32(size);
  }

  lemma RenameRoundTrip(oldName: Name, newName: Name)
    requires ValidName(oldName) && ValidName(newName)
    ensures NameAt(EncRename(oldName, newName), 1) == oldName
    ensures NameAt(EncRename(oldName, newName), 36) == newName
  {
    ValidNameSurvives(oldName);
    ValidNameSurvives(newName);
    assert EncRename(oldName, newName)[1..36] == Strncpy(oldName, FILE_NAME_LEN);
    assert EncRename(oldName, newName)[36..71] == Strncpy(newName, FILE_NAME_LEN);
  }

  lemma SizedRoundTrip(code: byte, size: u32)
    ensures SizeAt(EncSized(code, size), 1) == size
  {
    LE32RoundTrip(size);
    assert EncSized(code, size)[1..5] == LE32(size);
  }

  /** AuthenticationM1: code, zero-padded key, key length in network order, user name. */
  function EncAuthM1(key: bytes, user: Name): (r: bytes)
    ensures |r| == AUTH_M1_LEN
  {
    [AUTHENTICATION_REQUEST] + PadTo(key, EPHEMERAL_KEY_LEN) + BE32(|key| % U32_RANGE) + Strncpy(user, USERNAME_LEN)
  }

  /** A field of `n` bytes at `at`, cut to the length announced at `lenAt`. */
  function Announced(buffer: bytes, at: nat, n: nat, lenAt: nat): bytes
    requires at + n <= |buffer| && lenAt + 4 <= |buffer|
  {
    var len := FromBE32(buffer[lenAt..lenAt + 4]);
    if len <= n then buffer[at..at + len] else buffer[at..at + n]
  }

  function AuthM1Key(buffer: bytes): bytes
    requires |buffer| == AUTH_M1_LEN
  {
    Announced(buffer, 1, EPHEMERAL_KEY_LEN, 1025)
  }

  function AuthM1User(buffer: bytes): Name
    requires |buffer| == AUTH_M1_LEN
  {
    CString(buffer[1029..])
  }

  /** AuthenticationM3: key, its length, IV, AAD, tag, sealed signature, certificate, its length. */
  function EncAuthM3(key: bytes, iv: bytes, aad: bytes, tag: bytes, sealed: bytes, cert: bytes): (r: bytes)
    requires |iv| == IV_LEN && |aad| == AAD_LEN && |tag| == AES_TAG_LEN && |sealed| == ENCRYPTED_SIGNATURE_LEN
    ensures |r| == AUTH_M3_LEN
  {
    PadTo(key, EPHEMERAL_KEY_LEN) + BE32(|key| % U32_RANGE) + iv + aad + tag + sealed
    + PadTo(cert, MAX_SERIALIZED_CERTIFICATE_LEN) + BE32(|cert| % U32_RANGE)
  }

  function AuthM3Key(buffer: bytes): bytes
    requires |buffer| == AUTH_M3_LEN
  {
    Announced(buffer, 0, EPHEMERAL_KEY_LEN, 1024)
  }

  function AuthM3Cert(buffer: bytes): bytes
    requires |buffer| == AUTH_M3_LEN
  {
    Announced(buffer, 1188, MAX_SERIALIZED_CERTIFICATE_LEN, 2688)
  }

  /** AuthenticationM4: IV, AAD, tag, sealed signature. */
  function EncAuthM4(iv: bytes, aad: bytes, tag: bytes, sealed: bytes): (r: bytes)
    requires |iv| == IV_LEN && |aad| == AAD_LEN && |tag| == AES_TAG_LEN && |sealed| == ENCRYPTED_SIGNATURE_LEN
    ensures |r| == AUTH_M4_LEN
  {
    iv + aad + tag + sealed
  }

  lemma AnnouncedBack(buffer: bytes, at: nat, n: nat, lenAt: nat, field: bytes)
    requires at + n <= |buffer| && lenAt + 4 <= |buffer| && |field| <= n < U32_RANGE
    requires buffer[at..at + n] == PadTo(field, n) && buffer[lenAt..lenAt + 4] == BE32(|field|)
    ensures Announced(buffer, at, n, lenAt) == field
  {
    BE32RoundTrip(|field|);
    assert buffer[at..at + |field|] == buffer[at..at + n][..|field|];
  }

  lemma AuthM1RoundTrip(key: bytes, user: Name)
    requires |key| <= EPHEMERAL_KEY_LEN && ValidName(user)
    ensures AuthM1Key(EncAuthM1(key, user)) == key
    ensures AuthM1User(EncAuthM1(key, user)) == user
  {
    var m := EncAuthM1(key, user);
    assert m[1025..1029] == BE32(|key|);
    assert m[1..1025] == PadTo(key, EPHEMERAL_KEY_LEN);
    AnnouncedBack(m, 1, EPHEMERAL_KEY_LEN, 1025, key);
    assert m[1029..] == Strncpy(user, USERNAME_LEN);
    ValidNameSurvives(user);
  }

  lemma AuthM3Fields(key: bytes, iv: bytes, aad: bytes, tag: bytes, sealed: bytes, cert: bytes)
    requires |iv| == IV_LEN && |aad| == AAD_LEN && |tag| == AES_TAG_LEN && |sealed| == ENCRYPTED_SIGNATURE_LEN
    ensures var m := EncAuthM3(key, iv, aad, tag, sealed, cert);
            && m[0..1024] == PadTo(key, EPHEMERAL_KEY_LEN) && m[1024..1028] == BE32(|key| % U32_RANGE)
            && m[1028..1040] == iv && m[1040..1044] == aad && m[1044..1060] == tag && m[1060..1188] == sealed
            && m[1188..2688] == PadTo(cert, MAX_SERIALIZED_CERTIFICATE_LEN) && m[2688..2692] == BE32(|cert| % U32_RANGE)
  {
    hide PadTo, BE32;
  }

  lemma AuthM3RoundTrip(key: bytes, iv: bytes, aad: bytes, tag: bytes, sealed: bytes, cert: bytes)
    requires |iv| == IV_LEN && |aad| == AAD_LEN && |tag| == AES_TAG_LEN && |sealed| == ENCRYPTED_SIGNATURE_LEN
    requires |key| <= EPHEMERAL_KEY_LEN && |cert| <= MAX_SERIALIZED_CERTIFICATE_LEN
    ensures var m := EncAuthM3(key, iv, aad, tag, sealed, cert);
            && AuthM3Key(m) == key && AuthM3Cert(m) == cert
            && m[1028..1040] == iv && m[1040..1044] == aad && m[1044..1060] == tag && m[1060..1188] == sealed
  {
    hide PadTo, BE32, Announced, EncAuthM3;
    var m := EncAuthM3(key, iv, aad, tag, sealed, cert);
    AuthM3Fields(key, iv, aad, tag, sealed, cert);
    AnnouncedBack(m, 0, EPHEMERAL_KEY_LEN, 1024, key);
    AnnouncedBack(m, 1188, MAX_SERIALIZED_CERTIFICATE_LEN, 2688, cert);
  }

  lemma AuthM4RoundTrip(iv: bytes, aad: bytes, tag: bytes, sealed: bytes)
    requires |iv| == IV_LEN && |aad| == AAD_LEN && |tag| == AES_TAG_LEN && |sealed| == ENCRYPTED_SIGNATURE_LEN
    ensures var m := EncAuthM4(iv, aad, tag, sealed);
            m[..12] == iv && m[12..16] == aad && m[16..32] == tag && m[32..] == sealed
  {
  }

  // ---- Where the bytes stand ----

  /** At `at`, a field of `n` bytes holds `name` and then NULs. */
  predicate FieldHolds(text: bytes, at: nat, n: nat, name: bytes) {
    && at + n <= |text| && |name| <= n && text[at..at + |name|] == name
    && forall k :: at + |name| <= k < at + n ==> text[k] == 0
  }

  lemma CopiedField(text: bytes, at: nat, n: nat, name: bytes)
    requires at + n <= |text| && |name| <= n && 0 !in name
    requires text[at..at + n] == Strncpy(name, n)
    ensures FieldHolds(text, at, n, name)
  {
    CStringUnique(name, name);
    var field := text[at..at + n];
    assert field[..|name|] == name;
    forall k | at + |name| <= k < at + n ensures text[k] == 0 {
      assert text[k] == field[k - at];
    }
  }

  lemma PaddedField(text: bytes, at: nat, n: nat, data: bytes)
    requires at + n <= |text| && |data| <= n && text[at..at + n] == PadTo(data, n)
    ensures FieldHolds(text, at, n, data)
  {
    var field := text[at..at + n];
    assert field[..|data|] == data;
    forall k | at + |data| <= k < at + n ensures text[k] == 0 {
      assert text[k] == field[k - at];
    }
  }

  /** A delete or download request: code, name, random bytes. */
  lemma NamedLayout(code: byte, name: Name, tail: bytes)
    requires ValidName(name)
    ensures var m := EncNamed(code, name, tail); m[0] == code && FieldHolds(m, 1, 35, name) && m[36..] == tail
  {
    ValidNameSurvives(name);
    CopiedField(EncNamed(code, name, tail), 1, 35, name);
  }

  /** An upload request: code, name, size with its low byte first, random bytes. */
  lemma UploadLayout(name: Name, size: u32, tail: bytes)
    requires ValidName(name)
    ensures var m := EncUpload(name, size, tail);
            && m[0] == 3 && FieldHolds(m, 1, 35, name) && m[40..] == tail
            && size == ((m[39] as int * 256 + m[38] as int) * 256 + m[37] as int) * 256 + m[36] as int
  {
    hide LE32, Strncpy;
    var m := EncUpload(name, size, tail);
    ValidNameSurvives(name);
    assert m[1..36] == Strncpy(name, 35);
    CopiedField(m, 1, 35, name);
    ByteOrders(size);
    assert m[36] == LE32(size)[0] && m[37] == LE32(size)[1] && m[38] == LE32(size)[2] && m[39] == LE32(size)[3];
  }

  /** A rename request: code, old name, new name. */
  lemma RenameLayout(oldName: Name, newName: Name)
    requires ValidName(oldName) && ValidName(newName)
    ensures var m := EncRename(oldName, newName); m[0] == 14 && FieldHolds(m, 1, 35, oldName) && FieldHolds(m, 36, 35, newName)
  {
    hide Strncpy;
    var m := EncRename(oldName, newName);
    ValidNameSurvives(oldName);
    ValidNameSurvives(newName);
    assert m[1..36] == Strncpy(oldName, 35) && m[36..71] == Strncpy(newName, 35);
    CopiedField(m, 1, 35, oldName);
    CopiedField(m, 36, 35, newName);
  }

  /** ListM2 and DownloadM2: code and size, its low byte first. */
  lemma SizedLayout(code: byte, size: u32)
    ensures var m := EncSized(code, size);
            m[0] == code && size == ((m[4] as int * 256 + m[3] as int) * 256 + m[2] as int) * 256 + m[1] as int
  {
    ByteOrders(size);
  }

  /** M1: code, key, key length with its high byte first, user name. */
  lemma AuthM1Layout(key: bytes, user: Name)
    requires |key| <= EPHEMERAL_KEY_LEN && ValidName(user)
    ensures var m := EncAuthM1(key, user);
            && m[0] == 2 && FieldHolds(m, 1, 1024, key) && FieldHolds(m, 1029, 35, user)
            && |key| == ((m[1025] as int * 256 + m[1026] as int) * 256 + m[1027] as int) * 256 + m[1028] as int
  {
    hide BE32, PadTo;
    var m := EncAuthM1(key, user);
    ValidNameSurvives(user);
    assert m[1..1025] == PadTo(key, 1024) && m[1029..1064] == Strncpy(user, 35);
    PaddedField(m, 1, 1024, key);
    CopiedField(m, 1029, 35, user);
    ByteOrders(|key|);
    var n := BE32(|key|);
    assert m[1025] == n[0] && m[1026] == n[1] && m[1027] == n[2] && m[1028] == n[3];
  }

  /** M3: key, its length, IV, AAD, tag, sealed signature, certificate, its length. */
  lemma AuthM3Layout(key: bytes, iv: bytes, aad: bytes, tag: bytes, sealed: bytes, cert: bytes)
    requires |iv| == IV_LEN && |aad| == AAD_LEN && |tag| == AES_TAG_LEN && |sealed| == ENCRYPTED_SIGNATURE_LEN
    requires |key| <= EPHEMERAL_KEY_LEN && |cert| <= MAX_SERIALIZED_CERTIFICATE_LEN
    ensures var m := EncAuthM3(key, iv, aad, tag, sealed, cert);
            && FieldHolds(m, 0, 1024, key) && FieldHolds(m, 1188, 1500, cert)
            && m[1028..1040] == iv && m[1040..1044] == aad && m[1044..1060] == tag && m[1060..1188] == sealed
            && |key| == ((m[1024] as int * 256 + m[1025] as int) * 256 + m[1026] as int) * 256 + m[1027] as int
            && |cert| == ((m[2688] as int * 256 + m[2689] as int) * 256 + m[2690] as int) * 256 + m[2691] as int
  {
    hide BE32, PadTo, EncAuthM3;
    var m := EncAuthM3(key, iv, aad, tag, sealed, cert);
    AuthM3Fields(key, iv, aad, tag, sealed, cert);
    PaddedField(m, 0, 1024, key);
    PaddedField(m, 1188, 1500, cert);
    ByteOrders(|key|);
    ByteOrders(|cert|);
    var n, n' := BE32(|key|), BE32(|cert|);
    assert m[1024] == n[0] && m[1025] == n[1] && m[1026] == n[2] && m[1027] == n[3];
    assert m[2688] == n'[0] && m[2689] == n'[1] && m[2690] == n'[2] && m[2691] == n'[3];
  }
}
