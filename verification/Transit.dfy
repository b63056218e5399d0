/**
 Encrypted fields in transit: the crypto service (internal/service/crypto/service.go:81-175), the
 outbound and inbound transformers (internal/replication/transformers/crypto.go, metadata.go), and the
 round trip between two regions with their own keys.
 */
module Transit {
  import opened PrimaryKeys
  import opened Rows
  import opened Wire

  // ---- the crypto service ----

  /** Encryption takes a nonce; both directions may fail. */
  datatype Handler = Handler(
    encrypt: (string, string, nat) -> Result<string>, decrypt: (string, string) -> Result<string>)

  /** The key, if it can be loaded, and the handler of one field. */
  datatype FieldCrypto = FieldCrypto(key: Result<string>, handler: Handler)

  type Policy = map<string, map<string, FieldCrypto>>

  predicate HexPrefixed(s: string) {
    |s| >= 2 && s[0] == '\\' && s[1] == 'x'
  }

  /** Decryption undoes encryption, and no ciphertext looks like a hexadecimal byte string. */
  ghost predicate Invertible(h: Handler) {
    forall key, value, nonce :: h.encrypt(key, value, nonce).Success? ==>
      var c := h.encrypt(key, value, nonce).value;
      h.decrypt(key, c) == Success(value) && !HexPrefixed(c)
  }

  ghost predicate InvertiblePolicy(policy: Policy) {
    forall t, f :: t in policy && f in policy[t] ==> Invertible(policy[t][f].handler)
  }

  function FieldsOf(policy: Policy, table: string): map<string, FieldCrypto> {
    if table in policy then policy[table] else map[]
  }

  function Ciphertext(codec: Codec, encoded: string): string {
    if HexPrefixed(encoded) && codec.unhex(encoded[2..]).Some? then codec.unhex(encoded[2..]).value else encoded
  }

  /** A value that is not a JSON string is not encrypted and stays as it is. */
  function DecryptedValue(codec: Codec, c: FieldCrypto, raw: string): Result<string> {
    if codec.unquote(raw).None? then Success(raw)
    else if c.key.Failure? then Failure
    else c.handler.decrypt(c.key.value, Ciphertext(codec, codec.unquote(raw).value))
  }

  function EncryptedValue(codec: Codec, c: FieldCrypto, raw: string, nonce: nat): Result<string> {
    if c.key.Failure? then Failure
    else
      match c.handler.encrypt(c.key.value, raw, nonce)
      case Failure => Failure
      case Success(ciphertext) => Success(codec.quote(ciphertext))
  }

  /** One direction of the service on one field. */
  datatype Direction = Decrypting | Encrypting(nonces: string -> nat)

  function FieldValue(codec: Codec, d: Direction, c: FieldCrypto, field: string, raw: string): Result<string> {
    match d
    case Decrypting => DecryptedValue(codec, c, raw)
    case Encrypting(nonces) => EncryptedValue(codec, c, raw, nonces(field))
  }

  predicate FieldFails(codec: Codec, d: Direction, cfg: map<string, FieldCrypto>, fields: Fields, f: string) {
    f in cfg && f in fields && FieldValue(codec, d, cfg[f], f, fields[f]).Failure?
  }

  function NewValue(codec: Codec, d: Direction, cfg: map<string, FieldCrypto>, fields: Fields, f: string): string
    requires f in fields && !FieldFails(codec, d, cfg, fields, f)
  {
    if f in cfg then FieldValue(codec, d, cfg[f], f, fields[f]).value else fields[f]
  }

  /** Decrypt and Encrypt: every configured field that is present, or nothing. */
  function Transformed(codec: Codec, d: Direction, policy: Policy, table: string, fields: Fields): Result<Fields> {
    var cfg := FieldsOf(policy, table);
    if exists f :: f in fields && FieldFails(codec, d, cfg, fields, f) then Failure
    else Success(map f | f in fields :: NewValue(codec, d, cfg, fields, f))
  }

  lemma Untouched(codec: Codec, d: Direction, policy: Policy, table: string, fields: Fields)
    requires table !in policy || fields == map[]
    ensures Transformed(codec, d, policy, table, fields) == Success(fields)
  {
    assert fields == map f | f in fields :: NewValue(codec, d, FieldsOf(policy, table), fields, f);
  }

  /** All configured fields but those still to do are transformed. */
  predicate PartlyDone(
    codec: Codec, d: Direction, cfg: map<string, FieldCrypto>, fields: Fields, todo: set<string>, changed: Fields)
  {
    && changed.Keys == fields.Keys
    && forall f :: f in fields ==>
         if f in cfg && f !in todo
         then !FieldFails(codec, d, cfg, fields, f) && changed[f] == NewValue(codec, d, cfg, fields, f)
         else changed[f] == fields[f]
  }

  lemma AllDone(codec: Codec, d: Direction, policy: Policy, table: string, fields: Fields, changed: Fields)
    requires table in policy && PartlyDone(codec, d, policy[table], fields, {}, changed)
    ensures Transformed(codec, d, policy, table, fields) == Success(changed)
  {
    assert changed == map f | f in fields :: NewValue(codec, d, policy[table], fields, f);
  }

  // ---- what the service does, by handler and key ----

  predicate Configured(policy: Policy, table: string, f: string) {
    table in policy && f in policy[table]
  }

  /** A stored value: the JSON string of a ciphertext that the field's handler made under its key. */
  predicate IsEncryptionOf(codec: Codec, c: FieldCrypto, raw: string, nonce: nat, stored: string) {
    && c.key.Success? && c.handler.encrypt(c.key.value, raw, nonce).Success?
    && stored == codec.quote(c.handler.encrypt(c.key.value, raw, nonce).value)
  }

  /** Every configured field that is present is encrypted, and nothing else changes. */
  predicate IsEncrypted(
    codec: Codec, policy: Policy, table: string, nonces: string -> nat, raw: Fields, stored: Fields)
  {
    && stored.Keys == raw.Keys
    && forall f :: f in raw ==>
         if Configured(policy, table, f) then IsEncryptionOf(codec, policy[table][f], raw[f], nonces(f), stored[f])
         else stored[f] == raw[f]
  }

  /** What a stored text holds, with PostgreSQL's hexadecimal form undone. */
  function HeldText(codec: Codec, text: string): string {
    if "\\x" <= text && codec.unhex(text[2..]).Some? then codec.unhex(text[2..]).value else text
  }

  /** A JSON string is decrypted by the field's handler under its key; any other value stays. */
  predicate IsDecryptionOf(codec: Codec, c: FieldCrypto, stored: string, plain: string) {
    match codec.unquote(stored)
    case None => plain == stored
    case Some(text) => c.key.Success? && c.handler.decrypt(c.key.value, HeldText(codec, text)) == Success(plain)
  }

  predicate IsDecrypted(codec: Codec, policy: Policy, table: string, stored: Fields, plain: Fields) {
    && plain.Keys == stored.Keys
    && forall f :: f in stored ==>
         if Configured(policy, table, f) then IsDecryptionOf(codec, policy[table][f], stored[f], plain[f])
         else plain[f] == stored[f]
  }

  /** The key of a present configured field cannot be loaded, or its handler fails. */
  predicate CannotEncrypt(codec: Codec, policy: Policy, table: string, nonces: string -> nat, raw: Fields) {
    exists f :: f in raw && Configured(policy, table, f)
             && var c := policy[table][f];
                c.key.Failure? || c.handler.encrypt(c.key.value, raw[f], nonces(f)).Failure?
  }

  predicate CannotDecrypt(codec: Codec, policy: Policy, table: string, stored: Fields) {
    exists f :: f in stored && Configured(policy, table, f) && codec.unquote(stored[f]).Some?
             && var c := policy[table][f];
                || c.key.Failure?
                || c.handler.decrypt(c.key.value, HeldText(codec, codec.unquote(stored[f]).value)).Failure?
  }

  /** Encrypting fails when a field cannot be encrypted, and otherwise encrypts exactly the configured fields. */
  lemma EncryptionIs(codec: Codec, policy: Policy, table: string, nonces: string -> nat, raw: Fields)
    ensures var r := Transformed(codec, Encrypting(nonces), policy, table, raw);
            if CannotEncrypt(codec, policy, table, nonces, raw) then r == Failure
            else r.Success? && IsEncrypted(codec, policy, table, nonces, raw, r.value)
  {
    var d, cfg := Encrypting(nonces), FieldsOf(policy, table);
    if f :| f in raw && Configured(policy, table, f)
            && (policy[table][f].key.Failure?
                || policy[table][f].handler.encrypt(policy[table][f].key.value, raw[f], nonces(f)).Failure?) {
      assert FieldFails(codec, d, cfg, raw, f);
    } else {
      assert forall f :: f in raw ==> !FieldFails(codec, d, cfg, raw, f);
    }
  }

  /** The same of decrypting. */
  lemma DecryptionIs(codec: Codec, policy: Policy, table: string, stored: Fields)
    ensures var r := Transformed(codec, Decrypting, policy, table, stored);
            if CannotDecrypt(codec, policy, table, stored) then r == Failure
            else r.Success? && IsDecrypted(codec, policy, table, stored, r.value)
  {
    var cfg := FieldsOf(policy, table);
    forall f | f in stored && Configured(policy, table, f)
      ensures FieldFails(codec, Decrypting, cfg, stored, f) <==>
                && codec.unquote(stored[f]).Some?
                && (var held := HeldText(codec, codec.unquote(stored[f]).value);
                    cfg[f].key.Failure? || cfg[f].handler.decrypt(cfg[f].key.value, held).Failure?)
    {
    }
  }

  method TransformFields(codec: Codec, d: Direction, policy: Policy, table: string, fields: Fields)
    returns (result: Result<Fields>)
    ensures result == Transformed(codec, d, policy, table, fields)
    ensures d.Encrypting? ==>
              if CannotEncrypt(codec, policy, table, d.nonces, fields) then result == Failure
              else result.Success? && IsEncrypted(codec, policy, table, d.nonces, fields, result.value)
    ensures d.Decrypting? ==>
              if CannotDecrypt(codec, policy, table, fields) then result == Failure
              else result.Success? && IsDecrypted(codec, policy, table, fields, result.value)
  {
    result := TransformEach(codec, d, policy, table, fields);
    if d.Encrypting? {
      EncryptionIs(codec, policy, table, d.nonces, fields);
    } else {
      DecryptionIs(codec, policy, table, fields);
    }
  }

  /** The loop over the configured fields. */
  method TransformEach(codec: Codec, d: Direction, policy: Policy, table: string, fields: Fields)
    returns (result: Result<Fields>)
    ensures result == Transformed(codec, d, policy, table, fields)
  {
    if table !in policy || |fields| == 0 {
      Untouched(codec, d, policy, table, fields);
      return Success(fields);
    }
    var cfg := policy[table];
    var changed: Fields := fields;
    var todo := cfg.Keys;
    while todo != {}
      invariant todo <= cfg.Keys && PartlyDone(codec, d, cfg, fields, todo, changed)
      decreases |todo|
    {
      var f :| f in todo;
      if f in fields {
        var value := FieldValue(codec, d, cfg[f], f, fields[f]);
        if value.Failure? {
          assert FieldFails(codec, d, cfg, fields, f);
          return Failure;
        }
        changed := changed[f := value.value];
      }
      todo := todo - {f};
    }
    AllDone(codec, d, policy, table, fields, changed);
    return Success(changed);
  }

  /** There is only one decryption. */
  lemma DecryptedIs(codec: Codec, policy: Policy, table: string, stored: Fields, plain: Fields)
    requires IsDecrypted(codec, policy, table, stored, plain)
    ensures Transformed(codec, Decrypting, policy, table, stored) == Success(plain)
  {
    DecryptionIs(codec, policy, table, stored);
    forall f | f in stored && Configured(policy, table, f)
      ensures IsDecryptionOf(codec, policy[table][f], stored[f], plain[f])
    {
    }
    var r := Transformed(codec, Decrypting, policy, table, stored);
    if r.Success? {
      assert r.value == plain;
    }
  }

  // ---- transit keys ----

  const PREFIX: string := "transit.crypto."

  function TransitKey(field: string): string {
    if field == "" then "" else PREFIX + field
  }

  predicate IsFieldChar(c: char) {
    ('a' <= c <= 'z') || ('0' <= c <= '9') || c == '_' || c == '-'
  }

  predicate IsTransitField(field: string) {
    field != "" && forall i :: 0 <= i < |field| ==> IsFieldChar(field[i])
  }

  function ParseTransitKey(key: string): Option<string> {
    if PREFIX <= key && IsTransitField(key[|PREFIX|..]) then Some(key[|PREFIX|..]) else None
  }

  /** The names for which building and parsing a transit key are inverse. */
  lemma TransitKeyRoundTripIff(field: string)
    ensures ParseTransitKey(TransitKey(field)) == Some(field) <==> IsTransitField(field)
  {
    if field != "" {
      assert TransitKey(field)[|PREFIX|..] == field;
    }
  }

  lemma ParsedIsTransitKey(key: string)
    ensures ParseTransitKey(key).Some? ==>
              key == TransitKey(ParseTransitKey(key).value) && IsTransitField(ParseTransitKey(key).value)
  {
    if ParseTransitKey(key).Some? {
      assert key == PREFIX + key[|PREFIX|..];
    }
  }

  lemma TransitKeyInjective(f: string, g: string)
    requires f != "" && g != "" && TransitKey(f) == TransitKey(g)
    ensures f == g
  {
    assert TransitKey(f)[|PREFIX|..] == f && TransitKey(g)[|PREFIX|..] == g;
  }

  predicate IsTransitMetadataKey(key: string) {
    key == "transit" || "transit." <= key
  }

  lemma TransitKeysAreTransit(field: string)
    requires field != ""
    ensures IsTransitMetadataKey(TransitKey(field))
  {
    assert TransitKey(field)[..8] == "transit.";
  }

  /** Lower-case letters and digits are those of Unicode. */
  datatype Charset = Charset(isLower: char -> bool, isDigit: char -> bool)

  predicate IsSegmentChar(u: Charset, c: char) {
    u.isLower(c) || u.isDigit(c) || c == '_' || c == '-'
  }

  /** Non-empty segments of valid characters, separated by single dots. */
  predicate IsValidMetadataKey(u: Charset, key: string) {
    && key != "" && key[0] != '.' && key[|key| - 1] != '.'
    && (forall i :: 0 <= i < |key| ==> key[i] == '.' || IsSegmentChar(u, key[i]))
    && (forall i :: 0 <= i < |key| - 1 ==> !(key[i] == '.' && key[i + 1] == '.'))
  }

  // ---- outbound ----

  function AfterPrefix(key: string): string {
    if |key| >= |PREFIX| then key[|PREFIX|..] else ""
  }

  /** The configured fields that an event carries. */
  function Secret(policy: Policy, table: string, fields: Fields): set<string> {
    set f | f in fields && f in FieldsOf(policy, table)
  }

  function TransitKeys(names: set<string>): set<string> {
    set f | f in names :: TransitKey(f)
  }

  function TransitEntries(fields: Fields, names: set<string>): Fields {
    map k | k in TransitKeys(names) && AfterPrefix(k) in fields :: fields[AfterPrefix(k)]
  }

  /** PrepareOutboundBatch on one event: secret fields are decrypted and moved into the metadata. */
  function Outbound(codec: Codec, policy: Policy, e: Envelope): Result<Envelope> {
    match Transformed(codec, Decrypting, policy, e.table, e.fields)
    case Failure => Failure
    case Success(plain) =>
      var names := Secret(policy, e.table, plain);
      Success(e.(fields := plain - names, metadata := e.metadata + TransitEntries(plain, names)))
  }

  predicate NamedPolicy(policy: Policy) {
    forall t :: t in policy ==> "" !in policy[t]
  }

  lemma EntryStep(plain: Fields, done: set<string>, f: string)
    requires f in plain && f != "" && "" !in done && done <= plain.Keys
    ensures TransitEntries(plain, done + {f}) == TransitEntries(plain, done)[TransitKey(f) := plain[f]]
  {
    assert AfterPrefix(TransitKey(f)) == f;
    var a, b := TransitEntries(plain, done + {f}), TransitEntries(plain, done)[TransitKey(f) := plain[f]];
    forall k
      ensures k in a <==> k in b
    {
      assert k in TransitKeys(done + {f}) <==> k in TransitKeys(done) || k == TransitKey(f);
    }
  }

  method PrepareOutboundEvent(codec: Codec, policy: Policy, e: Envelope) returns (result: Result<Envelope>)
    requires NamedPolicy(policy)
    ensures result == Outbound(codec, policy, e)
  {
    var decrypted := TransformFields(codec, Decrypting, policy, e.table, e.fields);
    if decrypted.Failure? {
      return Failure;
    }
    var plain := decrypted.value;
    var metadata, fields := MoveSecrets(plain, e.metadata, FieldsOf(policy, e.table).Keys);
    assert FieldsOf(policy, e.table).Keys * plain.Keys == Secret(policy, e.table, plain);
    return Success(e.(fields := fields, metadata := metadata));
  }

  predicate Moving(plain: Fields, before: Fields, done: set<string>, metadata: Fields, fields: Fields) {
    && done <= plain.Keys && "" !in done
    && metadata == before + TransitEntries(plain, done) && fields == plain - done
  }

  lemma MoveStep(plain: Fields, before: Fields, done: set<string>, metadata: Fields, fields: Fields, f: string)
    requires Moving(plain, before, done, metadata, fields) && f in fields && f != ""
    ensures Moving(plain, before, done + {f}, metadata[TransitKey(f) := fields[f]], fields - {f})
  {
    EntryStep(plain, done, f);
    var more := TransitEntries(plain, done + {f});
    assert before + more == (before + TransitEntries(plain, done))[TransitKey(f) := plain[f]];
    assert plain - (done + {f}) == (plain - done) - {f};
  }

  lemma NothingMoved(plain: Fields, before: Fields)
    ensures Moving(plain, before, {}, before, plain)
  {
    assert TransitEntries(plain, {}) == map[];
    assert before + map[] == before;
    assert plain - {} == plain;
  }

  lemma DoneStep(names: set<string>, todo: set<string>, keys: set<string>, f: string)
    requires f in todo && todo <= names
    ensures f !in (names - todo) * keys
    ensures (names - (todo - {f})) * keys == if f in keys then (names - todo) * keys + {f} else (names - todo) * keys
  {
  }

  predicate MovingRest(
    plain: Fields, before: Fields, names: set<string>, todo: set<string>, metadata: Fields, fields: Fields)
  {
    todo <= names && Moving(plain, before, (names - todo) * plain.Keys, metadata, fields)
  }

  lemma MovingStep(
    plain: Fields, before: Fields, names: set<string>, todo: set<string>, metadata: Fields, fields: Fields, f: string)
    requires MovingRest(plain, before, names, todo, metadata, fields) && f in todo && "" !in names
    ensures f in fields ==>
              MovingRest(plain, before, names, todo - {f}, metadata[TransitKey(f) := fields[f]], fields - {f})
    ensures f !in fields ==> MovingRest(plain, before, names, todo - {f}, metadata, fields)
  {
    DoneStep(names, todo, plain.Keys, f);
    if f in fields {
      MoveStep(plain, before, (names - todo) * plain.Keys, metadata, fields, f);
    }
  }

  lemma MovingBounds(plain: Fields, before: Fields, names: set<string>, metadata: Fields, fields: Fields)
    ensures MovingRest(plain, before, names, names, before, plain)
    ensures MovingRest(plain, before, names, {}, metadata, fields) ==>
              Moving(plain, before, names * plain.Keys, metadata, fields)
  {
    NothingMoved(plain, before);
    assert (names - names) * plain.Keys == {};
    assert names - {} == names;
  }

  /** Moves the named fields that are present into the metadata, one after the other. */
  method MoveSecrets(plain: Fields, before: Fields, names: set<string>) returns (metadata: Fields, fields: Fields)
    requires "" !in names
    ensures Moving(plain, before, names * plain.Keys, metadata, fields)
  {
    metadata, fields := before, plain;
    var todo := names;
    MovingBounds(plain, before, names, metadata, fields);
    while todo != {}
      invariant MovingRest(plain, before, names, todo, metadata, fields)
      decreases |todo|
    {
      var f :| f in todo;
      MovingStep(plain, before, names, todo, metadata, fields, f);
      if f in fields {
        metadata, fields := metadata[TransitKey(f) := fields[f]], fields - {f};
      }
      todo := todo - {f};
    }
    MovingBounds(plain, before, names, metadata, fields);
  }

  // ---- inbound ----

  /** A parser of metadata keys, with the function that builds the keys it accepts. */
  datatype KeyParser = KeyParser(parse: string -> Option<string>, build: string -> string)

  ghost predicate BuildsParsed(p: KeyParser) {
    forall k :: p.parse(k).Some? ==> p.build(p.parse(k).value) == k
  }

  function ParsedBy(p: KeyParser, metadata: Fields): set<string> {
    set k | k in metadata && p.parse(k).Some? :: p.parse(k).value
  }

  /** The fields that parsed entries of the metadata stand for. */
  function RestoredBy(p: KeyParser, metadata: Fields): Fields {
    map f | f in ParsedBy(p, metadata) && p.build(f) in metadata :: metadata[p.build(f)]
  }

  function UnparsedBy(p: KeyParser, metadata: Fields): Fields {
    map k | k in metadata && p.parse(k).None? :: metadata[k]
  }

  const TRANSIT: KeyParser := KeyParser(k => ParseTransitKey(k), f => TransitKey(f))

  lemma TransitBuildsParsed()
    ensures BuildsParsed(TRANSIT)
  {
    forall k | TRANSIT.parse(k).Some?
      ensures TRANSIT.build(TRANSIT.parse(k).value) == k
    {
      ParsedIsTransitKey(k);
    }
  }

  function Restored(metadata: Fields): Fields {
    RestoredBy(TRANSIT, metadata)
  }

  function WithoutParsed(metadata: Fields): Fields {
    UnparsedBy(TRANSIT, metadata)
  }

  lemma RestoredAre(metadata: Fields, f: string)
    ensures f in Restored(metadata) <==> IsTransitField(f) && TransitKey(f) in metadata
    ensures f in Restored(metadata) ==> Restored(metadata)[f] == metadata[TransitKey(f)]
  {
    TransitKeyRoundTripIff(f);
    if IsTransitField(f) && TransitKey(f) in metadata {
      assert TRANSIT.parse(TransitKey(f)) == Some(f);
      assert f in ParsedBy(TRANSIT, metadata);
    }
    if f in ParsedBy(TRANSIT, metadata) {
      var k :| k in metadata && TRANSIT.parse(k) == Some(f);
      ParsedIsTransitKey(k);
    }
  }

  /** PrepareInboundEvents of the crypto transformer, on one event; deletes pass unchanged. */
  function CryptoInbound(codec: Codec, policy: Policy, nonces: string -> nat, e: Envelope): Result<Envelope> {
    if e.op.Delete? then Success(e)
    else
      match Transformed(codec, Encrypting(nonces), policy, e.table, e.fields + Restored(e.metadata))
      case Failure => Failure
      case Success(fields) => Success(e.(fields := fields, metadata := WithoutParsed(e.metadata)))
  }

  /** PrepareInboundEvents of the metadata transformer, on one event. */
  function MetadataInbound(u: Charset, e: Envelope): Result<Envelope> {
    if exists k :: k in e.metadata && !IsValidMetadataKey(u, k) then Failure
    else Success(e.(metadata := map k | k in e.metadata && !IsTransitMetadataKey(k) :: e.metadata[k]))
  }

  function Inbound(codec: Codec, u: Charset, policy: Policy, nonces: string -> nat, e: Envelope): Result<Envelope> {
    match CryptoInbound(codec, policy, nonces, e)
    case Failure => Failure
    case Success(next) => MetadataInbound(u, next)
  }

  function Remaining(p: KeyParser, metadata: Fields, done: set<string>): Fields {
    map k | k in metadata && (k !in done || p.parse(k).None?) :: metadata[k]
  }

  lemma RestoreStep(p: KeyParser, done: Fields, k: string, v: string)
    requires BuildsParsed(p) && k !in done
    ensures p.parse(k).None? ==> RestoredBy(p, done[k := v]) == RestoredBy(p, done)
    ensures p.parse(k).Some? ==> RestoredBy(p, done[k := v]) == RestoredBy(p, done)[p.parse(k).value := v]
  {
    var more := done[k := v];
    forall f
      ensures f in ParsedBy(p, more) <==> f in ParsedBy(p, done) || p.parse(k) == Some(f)
      ensures f in ParsedBy(p, done) ==> p.build(f) in done
    {
      if p.parse(k) == Some(f) {
        assert k in more;
      }
      if f in ParsedBy(p, done) {
        var l :| l in done && p.parse(l) == Some(f);
        assert l in more;
      }
    }
  }

  lemma SumStep(a: Fields, b: Fields, f: string, v: string)
    ensures a + b[f := v] == (a + b)[f := v]
  {
  }

  lemma FieldsStep(p: KeyParser, before: Fields, done: Fields, k: string, v: string)
    requires BuildsParsed(p) && k !in done
    ensures var now, next := before + RestoredBy(p, done), before + RestoredBy(p, done[k := v]);
            next == if p.parse(k).Some? then now[p.parse(k).value := v] else now
  {
    RestoreStep(p, done, k, v);
    if p.parse(k).Some? {
      SumStep(before, RestoredBy(p, done), p.parse(k).value, v);
    }
  }

  lemma RemainingStep(p: KeyParser, metadata: Fields, done: Fields, k: string)
    requires k in metadata
    ensures Remaining(p, metadata, done[k := metadata[k]].Keys)
         == if p.parse(k).Some? then Remaining(p, metadata, done.Keys) - {k} else Remaining(p, metadata, done.Keys)
    ensures metadata.Keys - done[k := metadata[k]].Keys == metadata.Keys - done.Keys - {k}
  {
    assert done[k := metadata[k]].Keys == done.Keys + {k};
  }

  lemma NothingRestored(p: KeyParser, before: Fields)
    ensures before + RestoredBy(p, map[]) == before
  {
    assert ParsedBy(p, map[]) == {};
    assert RestoredBy(p, map[]) == map[];
  }

  lemma RemainingBounds(p: KeyParser, metadata: Fields)
    ensures Remaining(p, metadata, {}) == metadata && Remaining(p, metadata, metadata.Keys) == UnparsedBy(p, metadata)
  {
  }

  /** The entries handled so far, the fields they restore, and the metadata that is left. */
  predicate Restoring(
    p: KeyParser, before: Fields, metadata: Fields, todo: set<string>, done: Fields, fields: Fields, rest: Fields)
  {
    && todo == metadata.Keys - done.Keys && done.Keys <= metadata.Keys
    && (forall k :: k in done ==> done[k] == metadata[k])
    && fields == before + RestoredBy(p, done) && rest == Remaining(p, metadata, done.Keys)
  }

  lemma RestoringStep(
    p: KeyParser, before: Fields, metadata: Fields, todo: set<string>, done: Fields, fields: Fields, rest: Fields,
    k: string)
    requires BuildsParsed(p) && Restoring(p, before, metadata, todo, done, fields, rest) && k in todo
    ensures Restoring(p, before, metadata, todo - {k}, done[k := metadata[k]],
                      if p.parse(k).Some? then fields[p.parse(k).value := metadata[k]] else fields,
                      if p.parse(k).Some? then rest - {k} else rest)
  {
    FieldsStep(p, before, done, k, metadata[k]);
    RemainingStep(p, metadata, done, k);
  }

  lemma RestoringStarts(p: KeyParser, before: Fields, metadata: Fields)
    ensures Restoring(p, before, metadata, metadata.Keys, map[], before, metadata)
  {
    NothingRestored(p, before);
    RemainingBounds(p, metadata);
    var none: Fields := map[];
    assert none.Keys == {};
  }

  lemma RestoringEnds(p: KeyParser, before: Fields, metadata: Fields, done: Fields, fields: Fields, rest: Fields)
    requires Restoring(p, before, metadata, {}, done, fields, rest)
    ensures fields == before + RestoredBy(p, metadata) && rest == UnparsedBy(p, metadata)
  {
    forall k | k in metadata
      ensures k in done
    {
      assert k !in metadata.Keys - done.Keys;
    }
    assert done == metadata;
    RemainingBounds(p, metadata);
  }

  /** Moves every parsed entry of the metadata back into the fields. */
  method RestoreFields(p: KeyParser, before: Fields, metadata: Fields) returns (fields: Fields, rest: Fields)
    requires BuildsParsed(p)
    ensures fields == before + RestoredBy(p, metadata) && rest == UnparsedBy(p, metadata)
  {
    fields, rest := before, metadata;
    var todo := metadata.Keys;
    ghost var done: Fields := map[];
    RestoringStarts(p, before, metadata);
    while todo != {}
      invariant Restoring(p, before, metadata, todo, done, fields, rest)
      decreases |todo|
    {
      var k :| k in todo;
      RestoringStep(p, before, metadata, todo, done, fields, rest, k);
      if p.parse(k).Some? {
        fields, rest := fields[p.parse(k).value := metadata[k]], rest - {k};
      }
      todo, done := todo - {k}, done[k := metadata[k]];
    }
    RestoringEnds(p, before, metadata, done, fields, rest);
  }

  method PrepareInboundEvent(codec: Codec, u: Charset, policy: Policy, nonces: string -> nat, e: Envelope)
    returns (result: Result<Envelope>)
    ensures result == Inbound(codec, u, policy, nonces, e)
  {
    var next := e;
    if !e.op.Delete? {
      TransitBuildsParsed();
      var fields, rest := RestoreFields(TRANSIT, e.fields, e.metadata);
      var stored := TransformFields(codec, Encrypting(nonces), policy, e.table, fields);
      if stored.Failure? {
        return Failure;
      }
      next := e.(fields := stored.value, metadata := rest);
    }
    result := DropTransitMetadata(u, next);
  }

  function Screened(metadata: Fields, todo: set<string>): Fields {
    map k | k in metadata && (k in todo || !IsTransitMetadataKey(k)) :: metadata[k]
  }

  lemma ScreenStep(metadata: Fields, todo: set<string>, k: string)
    requires k in todo && k in metadata
    ensures Screened(metadata, todo - {k})
         == if IsTransitMetadataKey(k) then Screened(metadata, todo) - {k} else Screened(metadata, todo)
  {
  }

  lemma ScreenBounds(u: Charset, e: Envelope)
    ensures Screened(e.metadata, e.metadata.Keys) == e.metadata
    ensures (forall k :: k in e.metadata ==> IsValidMetadataKey(u, k)) ==>
              MetadataInbound(u, e) == Success(e.(metadata := Screened(e.metadata, {})))
  {
    assert Screened(e.metadata, {}) == map k | k in e.metadata && !IsTransitMetadataKey(k) :: e.metadata[k];
  }

  method DropTransitMetadata(u: Charset, e: Envelope) returns (result: Result<Envelope>)
    ensures result == MetadataInbound(u, e)
  {
    var todo, metadata := e.metadata.Keys, e.metadata;
    ScreenBounds(u, e);
    while todo != {}
      invariant todo <= e.metadata.Keys && metadata == Screened(e.metadata, todo)
      invariant forall k :: k in e.metadata && k !in todo ==> IsValidMetadataKey(u, k)
      decreases |todo|
    {
      var k :| k in todo;
      if !IsValidMetadataKey(u, k) {
        return Failure;
      }
      ScreenStep(e.metadata, todo, k);
      if IsTransitMetadataKey(k) {
        metadata := metadata - {k};
      }
      todo := todo - {k};
    }
    return Success(e.(metadata := metadata));
  }

  /** Whatever passes the inbound pipeline has no transit entry left. */
  lemma NoTransitEntryLeft(codec: Codec, u: Charset, policy: Policy, nonces: string -> nat, e: Envelope)
    ensures var r := Inbound(codec, u, policy, nonces, e);
            r.Success? ==> forall k :: k in r.value.metadata ==> !IsTransitMetadataKey(k) && IsValidMetadataKey(u, k)
  {
  }

  // ---- the round trip ----

  lemma DecryptInvertsEncrypt(codec: Codec, c: FieldCrypto, raw: string, nonce: nat)
    requires ValidCodec(codec) && Invertible(c.handler) && EncryptedValue(codec, c, raw, nonce).Success?
    ensures DecryptedValue(codec, c, EncryptedValue(codec, c, raw, nonce).value) == Success(raw)
  {
    var r := c.handler.encrypt(c.key.value, raw, nonce);
    assert r.Success?;
    assert codec.unquote(codec.quote(r.value)) == Some(r.value);
    assert c.handler.decrypt(c.key.value, r.value) == Success(raw);
  }

  lemma StoredFieldsDecrypt(codec: Codec, policy: Policy, table: string, nonces: string -> nat, plain: Fields)
    requires ValidCodec(codec) && InvertiblePolicy(policy)
    requires Transformed(codec, Encrypting(nonces), policy, table, plain).Success?
    ensures var stored := Transformed(codec, Encrypting(nonces), policy, table, plain).value;
            Transformed(codec, Decrypting, policy, table, stored) == Success(plain)
  {
    var cfg, d := FieldsOf(policy, table), Encrypting(nonces);
    var stored := Transformed(codec, d, policy, table, plain).value;
    forall f | f in plain
      ensures !FieldFails(codec, Decrypting, cfg, stored, f) && NewValue(codec, Decrypting, cfg, stored, f) == plain[f]
    {
      assert !FieldFails(codec, d, cfg, plain, f);
      if f in cfg {
        DecryptInvertsEncrypt(codec, cfg[f], plain[f], nonces(f));
      }
    }
    assert plain == map f | f in stored :: NewValue(codec, Decrypting, cfg, stored, f);
  }

  /** The handler of every configured field, under its key, decrypts what is stored to the plain value. */
  predicate KeepsSecrets(codec: Codec, policy: Policy, table: string, stored: Fields, plain: Fields) {
    && stored.Keys == plain.Keys
    && forall f :: f in plain ==>
         if Configured(policy, table, f) then
           var c := policy[table][f];
           && c.key.Success? && codec.unquote(stored[f]).Some?
           && c.handler.decrypt(c.key.value, codec.unquote(stored[f]).value) == Success(plain[f])
         else stored[f] == plain[f]
  }

  /** What the service stores can be decrypted by handler and key alone. */
  lemma StoredKeepsSecrets(codec: Codec, policy: Policy, table: string, nonces: string -> nat, plain: Fields)
    requires ValidCodec(codec) && InvertiblePolicy(policy)
    requires Transformed(codec, Encrypting(nonces), policy, table, plain).Success?
    ensures var stored := Transformed(codec, Encrypting(nonces), policy, table, plain).value;
            KeepsSecrets(codec, policy, table, stored, plain)
  {
    var stored := Transformed(codec, Encrypting(nonces), policy, table, plain).value;
    EncryptionIs(codec, policy, table, nonces, plain);
    forall f | f in plain && Configured(policy, table, f)
      ensures var c := policy[table][f];
              && c.key.Success? && codec.unquote(stored[f]).Some?
              && c.handler.decrypt(c.key.value, codec.unquote(stored[f]).value) == Success(plain[f])
    {
      var c := policy[table][f];
      assert IsEncryptionOf(codec, c, plain[f], nonces(f), stored[f]) && Invertible(c.handler);
      var text := c.handler.encrypt(c.key.value, plain[f], nonces(f)).value;
      assert codec.unquote(codec.quote(text)) == Some(text);
    }
  }

  predicate PlainMetadata(u: Charset, metadata: Fields) {
    forall k :: k in metadata ==> !IsTransitMetadataKey(k) && IsValidMetadataKey(u, k)
  }

  lemma ParsedKeysAreTransit(k: string)
    ensures ParseTransitKey(k).Some? ==> IsTransitMetadataKey(k)
  {
    ParsedIsTransitKey(k);
    if ParseTransitKey(k).Some? {
      TransitKeysAreTransit(ParseTransitKey(k).value);
    }
  }

  /** What the receiver restores: the secret fields with a transit name. */
  lemma RestoredIs(u: Charset, plain: Fields, names: set<string>, metadata: Fields, f: string)
    requires PlainMetadata(u, metadata) && names <= plain.Keys && "" !in names
    ensures var restored := Restored(metadata + TransitEntries(plain, names));
            && (f in restored <==> f in names && IsTransitField(f))
            && (f in restored ==> restored[f] == plain[f])
  {
    var all := metadata + TransitEntries(plain, names);
    RestoredAre(all, f);
    if IsTransitField(f) {
      TransitKeysAreTransit(f);
      assert AfterPrefix(TransitKey(f)) == f;
      if TransitKey(f) in TransitKeys(names) {
        var g :| g in names && TransitKey(g) == TransitKey(f);
        TransitKeyInjective(f, g);
      }
    }
  }

  lemma RestoredFields(u: Charset, plain: Fields, names: set<string>, metadata: Fields)
    requires PlainMetadata(u, metadata) && names <= plain.Keys && "" !in names
    ensures var restored := Restored(metadata + TransitEntries(plain, names));
            && (plain - names) + restored == plain - (set f | f in names && !IsTransitField(f))
  {
    forall f
      ensures var restored := Restored(metadata + TransitEntries(plain, names));
              && (f in restored <==> f in names && IsTransitField(f))
              && (f in restored ==> restored[f] == plain[f])
    {
      RestoredIs(u, plain, names, metadata, f);
    }
  }

  lemma MetadataComesBack(u: Charset, plain: Fields, names: set<string>, metadata: Fields)
    requires PlainMetadata(u, metadata) && "" !in names && forall f :: f in names ==> IsTransitField(f)
    ensures WithoutParsed(metadata + TransitEntries(plain, names)) == metadata
  {
    var entries := TransitEntries(plain, names);
    var all := metadata + entries;
    forall k | k in all
      ensures k in entries <==> ParseTransitKey(k).Some?
      ensures k in metadata ==> k !in entries
    {
      if k in entries {
        var f :| f in names && k == TransitKey(f);
        TransitKeyRoundTripIff(f);
        TransitKeysAreTransit(f);
      }
      if k in metadata {
        ParsedKeysAreTransit(k);
      }
    }
  }

  /** The receiver's event agrees with the sender's: its handlers decrypt the plain fields, all else is unchanged. */
  predicate Agrees(codec: Codec, policy: Policy, e: Envelope, plain: Fields, received: Result<Envelope>) {
    && received.Success?
    && received.value == e.(fields := received.value.fields)
    && KeepsSecrets(codec, policy, e.table, received.value.fields, plain)
  }

  /** Encoding, wire and decoding between the two pipelines. */
  function Delivered(
    codec: Codec, u: Charset, policy: Policy, nonces: string -> nat, sent: Envelope): Result<Envelope>
  {
    match FromWire(codec, ToWire(codec, sent))
    case Failure => Failure
    case Success(e) => Inbound(codec, u, policy, nonces, e)
  }

  lemma PlainRoundTrip(
    codec: Codec, u: Charset, sender: Policy, receiver: Policy, nonces: string -> nat, e: Envelope, plain: Fields)
    requires ValidCodec(codec) && NamedPolicy(sender) && InvertiblePolicy(receiver)
    requires !e.op.Delete? && PlainMetadata(u, e.metadata) && forall p :: p in e.key ==> WireSafe(codec, p)
    requires Transformed(codec, Decrypting, sender, e.table, e.fields) == Success(plain)
    requires Transformed(codec, Encrypting(nonces), receiver, e.table, plain).Success?
    ensures var sent := Outbound(codec, sender, e);
            && sent.Success?
            && (Agrees(codec, receiver, e, plain, Delivered(codec, u, receiver, nonces, sent.value))
                <==> forall f :: f in Secret(sender, e.table, plain) ==> IsTransitField(f))
  {
    var names := Secret(sender, e.table, plain);
    var sent := Outbound(codec, sender, e).value;
    EventRoundTripIff(codec, sent);
    RestoredFields(u, plain, names, e.metadata);
    if forall f :: f in names ==> IsTransitField(f) {
      assert plain - (set f | f in names && !IsTransitField(f)) == plain;
      MetadataComesBack(u, plain, names, e.metadata);
      StoredKeepsSecrets(codec, receiver, e.table, nonces, plain);
      AllRestoredAgrees(codec, u, receiver, nonces, e, plain, sent);
    } else {
      var f :| f in names && !IsTransitField(f);
      LostFieldDisagrees(codec, u, receiver, nonces, e, plain, sent, f);
    }
  }

  /**
   The transit round trip, for any two policies: the receiver ends up with an event whose decrypted
   fields are the sender's and that is otherwise unchanged, if and only if every secret field has a
   name over a-z, 0-9, underscore and dash.
   */
  lemma TransitRoundTripIff(
    codec: Codec, u: Charset, sender: Policy, receiver: Policy, nonces: string -> nat, e: Envelope, plain: Fields)
    requires ValidCodec(codec) && NamedPolicy(sender) && InvertiblePolicy(receiver)
    requires !e.op.Delete? && PlainMetadata(u, e.metadata) && forall p :: p in e.key ==> WireSafe(codec, p)
    requires IsDecrypted(codec, sender, e.table, e.fields, plain)
    requires !CannotEncrypt(codec, receiver, e.table, nonces, plain)
    ensures var sent := Outbound(codec, sender, e);
            && sent.Success?
            && (Agrees(codec, receiver, e, plain, Delivered(codec, u, receiver, nonces, sent.value))
                <==> forall f :: f in Secret(sender, e.table, plain) ==> IsTransitField(f))
  {
    DecryptedIs(codec, sender, e.table, e.fields, plain);
    EncryptionIs(codec, receiver, e.table, nonces, plain);
    PlainRoundTrip(codec, u, sender, receiver, nonces, e, plain);
  }

  lemma AllRestoredAgrees(
    codec: Codec, u: Charset, receiver: Policy, nonces: string -> nat, e: Envelope, plain: Fields, sent: Envelope)
    requires !e.op.Delete? && PlainMetadata(u, e.metadata)
    requires sent == e.(fields := sent.fields, metadata := sent.metadata)
    requires FromWire(codec, ToWire(codec, sent)) == Success(sent)
    requires sent.fields + Restored(sent.metadata) == plain && WithoutParsed(sent.metadata) == e.metadata
    requires var stored := Transformed(codec, Encrypting(nonces), receiver, e.table, plain);
             stored.Success? && KeepsSecrets(codec, receiver, e.table, stored.value, plain)
    ensures Agrees(codec, receiver, e, plain, Delivered(codec, u, receiver, nonces, sent))
  {
    var next := CryptoInbound(codec, receiver, nonces, sent).value;
    assert next.metadata == e.metadata;
    var kept := map k | k in next.metadata && !IsTransitMetadataKey(k) :: next.metadata[k];
    assert kept == e.metadata;
  }

  lemma LostFieldDisagrees(
    codec: Codec, u: Charset, receiver: Policy, nonces: string -> nat, e: Envelope, plain: Fields, sent: Envelope,
    f: string)
    requires !e.op.Delete? && sent == e.(fields := sent.fields, metadata := sent.metadata)
    requires FromWire(codec, ToWire(codec, sent)) == Success(sent)
    requires f in plain && f !in sent.fields + Restored(sent.metadata)
    ensures !Agrees(codec, receiver, e, plain, Delivered(codec, u, receiver, nonces, sent))
  {
    var received := Delivered(codec, u, receiver, nonces, sent);
    if received.Success? {
      var fields := received.value.fields;
      assert f !in fields;
    }
  }
}
