/** Stored API keys: create, edit, reveal and delete over one table, with the secrets sealed by the
    envelope cipher, and with KEKs being added and the active one being replaced in between. */
module ApiKeys {
  import opened Basics
  import E = Envelope

  type Id = int

  datatype Kind = Opaque | HeaderApiKey | HttpBasic | UsernamePassword | Ssh | ConnectionString

  /** CredentialKindFromWire: unknown and empty values are opaque. */
  function FromWire(s: string): Kind {
    if s == "header_api_key" then HeaderApiKey
    else if s == "http_basic" then HttpBasic
    else if s == "username_password" then UsernamePassword
    else if s == "ssh" then Ssh
    else if s == "connection_string" then ConnectionString
    else Opaque
  }

  datatype Row = Row(user: int, name: string, cipher: E.Bytes, kind: Kind, header: Option<string>,
                     prefix: Option<string>, username: Option<string>, description: Option<string>,
                     baseUrl: Option<string>, docsUrl: Option<string>)

  type Table = map<Id, Row>

  datatype Params = Params(name: string, secret: E.Bytes, kind: string, header: string, prefix: Option<string>,
                           username: string, description: Option<string>, baseUrl: Option<string>, docsUrl: Option<string>)

  datatype Error = NameRequired | ColonInUsername | SecretRequired | PasswordRequired | Cipher(e: E.Error) | StoreFailed

  /** The calls into the store that fail. */
  datatype Faults = Faults(find: bool, write: bool)

  /** unicode.IsSpace. */
  predicate IsSpace(c: char) {
    '\t' <= c <= '\r' || c in {' ', '\U{0085}', '\U{00A0}', '\U{1680}', '\U{2028}', '\U{2029}', '\U{202F}', '\U{205F}', '\U{3000}'}
    || '\U{2000}' <= c <= '\U{200A}'
  }

  function TrimLeft(s: string): (r: string)
    ensures |r| <= |s| && (r == "" || !IsSpace(r[0])) && s[|s| - |r|..] == r
  {
    if s != "" && IsSpace(s[0]) then TrimLeft(s[1..]) else s
  }

  function TrimRight(s: string): (r: string)
    ensures |r| <= |s| && s[..|r|] == r && (r == "" || !IsSpace(r[|r| - 1]))
  {
    if s != "" && IsSpace(s[|s| - 1]) then TrimRight(s[..|s| - 1]) else s
  }

  function Trim(s: string): string {
    TrimRight(TrimLeft(s))
  }

  predicate IsRow(r: Row, user: int, name: string) {
    r.user == user && r.name == name
  }

  ghost predicate OneRowPerName(t: Table) {
    forall i, j :: i in t && j in t && IsRow(t[i], t[j].user, t[j].name) ==> i == j
  }

  /** The header and prefix of a row fit its kind. */
  predicate Fits(r: Row) {
    match r.kind
    case HttpBasic => r.header.Some? && r.header.value != "" && r.prefix.None?
    case HeaderApiKey => r.header.Some? ==> r.header.value != ""
    case _ => r.header.None? && r.prefix.None?
  }

  /** GetAPIKeyByName. */
  ghost function RowOf(t: Table, user: int, name: string): (r: Option<Id>)
    ensures r.Some? ==> r.value in t && IsRow(t[r.value], user, name)
    ensures r.None? ==> forall i :: i in t ==> !IsRow(t[i], user, name)
  {
    if i :| i in t && IsRow(t[i], user, name) then Some(i) else None
  }

  function Plain(gcm: E.Aead, keks: E.Keks, r: Row): Result<E.Bytes, E.Error> {
    E.Decrypted(gcm, keks, r.cipher)
  }

  /** The row with the given fields, as far as its kind allows them; the secret is left as it is. */
  function Shaped(r: Row, p: Params): (r': Row)
    ensures Fits(r') && r'.user == r.user && r'.name == r.name && r'.cipher == r.cipher
  {
    var kind := FromWire(p.kind);
    var header := Trim(p.header);
    r.(description := p.description, baseUrl := p.baseUrl, docsUrl := p.docsUrl, kind := kind,
       username := if Trim(p.username) == "" then None else Some(Trim(p.username)),
       header := match kind
                 case HttpBasic => Some(if header != "" then header else "Authorization")
                 case HeaderApiKey => if header != "" then Some(header) else None
                 case _ => None,
       prefix := if kind.HeaderApiKey? then p.prefix else None)
  }

  function NewRow(user: int, name: string): Row {
    Row(user, name, [], Opaque, None, None, None, None, None, None)
  }

  /** Why Create refuses, if it does; `base` is the row of that name, if there is one. A secret is asked
      for where there is none to keep. */
  function Refusal(base: Option<Row>, p: Params, keks: E.Keks, faults: Faults): Option<Error> {
    if Trim(p.name) == "" then Some(NameRequired)
    else if ':' in Trim(p.username) then Some(ColonInUsername)
    else if faults.find then Some(StoreFailed)
    else if p.secret == [] && base.None? then Some(SecretRequired)
    else if p.secret == [] && Trim(p.username) != "" && base.value.cipher == [] then Some(PasswordRequired)
    else if p.secret != [] && |keks.active| > 0xFF then Some(Cipher(E.KekIdTooLong))
    else if faults.write then Some(StoreFailed)
    else None
  }

  predicate Refused(base: Option<Row>, p: Params, keks: E.Keks, faults: Faults) {
    Refusal(base, p, keks, faults).Some?
  }

  ghost function BaseOf(t: Table, user: int, name: string): Option<Row> {
    match RowOf(t, user, name) case Some(i) => Some(t[i]) case None => None
  }

  ghost predicate Sealed(blob: E.Bytes, gcm: E.Aead, keks: E.Keks, secret: E.Bytes, r: E.Rand)
    requires keks.Valid()
  {
    E.Parse(blob) == Ok(E.BlobFor(gcm, keks, secret, r))
  }

  /** What a successful Create did, with the blob it sealed. */
  ghost function Saved(t: Table, user: int, p: Params, blob: E.Bytes, newId: Id): Table {
    match RowOf(t, user, p.name)
    case Some(i) => t[i := Shaped(t[i], p).(cipher := if p.secret == [] then t[i].cipher else blob)]
    case None => t[newId := Shaped(NewRow(user, p.name), p).(cipher := blob)]
  }

  lemma PutKeepsOneRow(t: Table, i: Id, row: Row)
    requires OneRowPerName(t) && RowOf(t, row.user, row.name) == (if i in t then Some(i) else None)
    ensures OneRowPerName(t[i := row])
  {}

  /** Writing the shaped row under its id is what Saved says. */
  lemma SavedIsOneRow(t: Table, user: int, p: Params, i: Id, row: Row, newId: Id)
    requires OneRowPerName(t) && newId !in t
    requires var found := RowOf(t, user, p.name);
             var base := if found.Some? then t[found.value] else NewRow(user, p.name);
             i == (if found.Some? then found.value else newId) && row == Shaped(base, p).(cipher := row.cipher)
             && (found.Some? && p.secret == [] ==> row.cipher == base.cipher)
    ensures t[i := row] == Saved(t, user, p, row.cipher, newId) && OneRowPerName(t[i := row])
  {
    PutKeepsOneRow(t, i, row);
  }

  // ---- the code ----

  class ApiKeyService {
    var rows: Table
    var cipher: E.EnvelopeCipher

    constructor (cipher: E.EnvelopeCipher)
      ensures rows == map[] && this.cipher == cipher
    {
      rows := map[];
      this.cipher := cipher;
    }

    ghost predicate Valid()
      reads this
    {
      E.Lawful(cipher.gcm) && cipher.keks.Valid() && OneRowPerName(rows)
    }

    method GetByNameRow(user: int, name: string) returns (r: Option<Id>)
      requires OneRowPerName(rows)
      ensures r == RowOf(rows, user, name)
    {
      var pending := rows.Keys;
      while pending != {}
        invariant pending <= rows.Keys
        invariant forall i :: i in rows && i !in pending ==> !IsRow(rows[i], user, name)
      {
        var i := AnyOf(pending);
        if IsRow(rows[i], user, name) {
          return Some(i);
        }
        pending := pending - {i};
      }
      return None;
    }

    /** Create inserts a credential or edits the one of that name; `secret` empty means none given. A
        refused call changes nothing; otherwise just the row of that name changes, to the given fields
        and the sealed secret, or the secret it had. */
    method Create(user: int, p: Params, r: E.Rand, newId: Id, faults: Faults) returns (res: Result<Id, Error>)
      requires Valid() && r.Valid() && newId !in rows
      modifies this`rows
      ensures Valid()
      ensures match Refusal(BaseOf(old(rows), user, p.name), p, cipher.keks, faults)
              case Some(error) => res == Err(error) && rows == old(rows)
              case None => res.Ok?
      ensures res.Ok? ==> res.value == (match RowOf(old(rows), user, p.name) case Some(j) => j case None => newId)
      ensures res.Ok? ==> res.value in rows && rows == Saved(old(rows), user, p, rows[res.value].cipher, newId)
      ensures res.Ok? && p.secret != [] ==> Sealed(rows[res.value].cipher, cipher.gcm, cipher.keks, p.secret, r)
    {
      if Trim(p.name) == "" {
        return Err(NameRequired);
      }
      var username := Trim(p.username);
      if username != "" && ':' in username {
        return Err(ColonInUsername);
      }
      if faults.find {
        return Err(StoreFailed);
      }
      var found := GetByNameRow(user, p.name);
      var isNew := found.None?;
      if isNew && p.secret == [] {
        return Err(SecretRequired);
      }
      var existing := if isNew then NewRow(user, p.name) else rows[found.value];
      if username != "" && p.secret == [] && (isNew || existing.cipher == []) {
        return Err(PasswordRequired);
      }
      existing := SetFields(existing, p);
      if p.secret != [] {
        var blob := cipher.Encrypt(p.secret, r);
        if blob.Err? {
          return Err(Cipher(blob.error));
        }
        existing := existing.(cipher := blob.value);
      }
      if faults.write {
        return Err(StoreFailed);
      }
      var i := if isNew then newId else found.value;
      SavedIsOneRow(rows, user, p, i, existing, newId);
      rows := rows[i := existing];
      return Ok(i);
    }

    method SetFields(row: Row, p: Params) returns (existing: Row)
      ensures existing == Shaped(row, p)
    {
      var kind := FromWire(p.kind);
      var username := Trim(p.username);
      existing := row.(description := p.description);
      existing := existing.(baseUrl := p.baseUrl);
      existing := existing.(docsUrl := p.docsUrl);
      existing := existing.(username := if username == "" then None else Some(username));
      existing := existing.(kind := kind);
      var header := Trim(p.header);
      match kind {
        case HttpBasic =>
          var headerName := "Authorization";
          if header != "" {
            headerName := header;
          }
          existing := existing.(header := Some(headerName));
          existing := existing.(prefix := None);
        case HeaderApiKey =>
          existing := existing.(header := if header != "" then Some(header) else None);
          existing := existing.(prefix := p.prefix);
        case _ =>
          existing := existing.(header := None);
          existing := existing.(prefix := None);
      }
    }

    /** GetByName reveals the secret; nothing for an unknown name. It fails when the row cannot be looked up,
        the secret cannot be decrypted, or the use of the row cannot be noted. */
    method Reveal(user: int, name: string, faults: Faults) returns (res: Result<Option<E.Bytes>, Error>)
      requires OneRowPerName(rows)
      ensures res == if faults.find then Err(StoreFailed)
                     else match BaseOf(rows, user, name)
                          case None => Ok(None)
                          case Some(row) =>
                            match Plain(cipher.gcm, cipher.keks, row)
                            case Err(e) => Err(Cipher(e))
                            case Ok(secret) => if faults.write then Err(StoreFailed) else Ok(Some(secret))
    {
      if faults.find {
        return Err(StoreFailed);
      }
      var found := GetByNameRow(user, name);
      if found.None? {
        return Ok(None);
      }
      var secret := cipher.Decrypt(rows[found.value].cipher);
      if secret.Err? {
        return Err(Cipher(secret.error));
      }
      if faults.write {
        return Err(StoreFailed);
      }
      return Ok(Some(secret.value));
    }

    method Delete(user: int, i: Id) returns (ok: bool)
      modifies this`rows
      ensures ok <==> i in old(rows) && old(rows)[i].user == user
      ensures rows == Without(old(rows), user, i)
    {
      ok := i in rows && rows[i].user == user;
      if ok {
        rows := rows - {i};
      }
    }
  }

  function Without(t: Table, user: int, i: Id): Table {
    if i in t && t[i].user == user then t - {i} else t
  }

  // ---- histories ----

  /** A create or edit, a delete, or a change of the configured KEKs. */
  datatype Op =
    | Save(user: int, p: Params, blob: E.Bytes, r: E.Rand, newId: Id, faults: Faults)
    | Remove(user: int, i: Id)
    | Rotate(keks: E.Keks)

  datatype State = State(t: Table, keks: E.Keks)

  ghost function Apply(s: State, op: Op): State {
    match op
    case Save(user, p, blob, r, newId, faults) =>
      if Refused(BaseOf(s.t, user, p.name), p, s.keks, faults) then s else s.(t := Saved(s.t, user, p, blob, newId))
    case Remove(user, i) => s.(t := Without(s.t, user, i))
    case Rotate(keks) => s.(keks := keks)
  }

  /** Blobs come from the cipher, row ids are new, and a rotation keeps the keys it had. */
  ghost predicate Legal(s: State, op: Op, gcm: E.Aead) {
    match op
    case Save(user, p, blob, r, newId, faults) => newId !in s.t && r.Valid() && s.keks.Valid()
      && (p.secret != [] && |s.keks.active| <= 0xFF ==> Sealed(blob, gcm, s.keks, p.secret, r))
    case Remove(_, _) => true
    case Rotate(keks) => keks.Valid() && Extends(keks, s.keks)
  }

  ghost predicate Extends(keks: E.Keks, past: E.Keks) {
    forall id :: id in past.keys ==> id in keks.keys && keks.keys[id] == past.keys[id]
  }

  type Memory = map<(int, string), E.Bytes>

  /** The last non-empty secret given for each user and name since its last deletion. */
  ghost function Remember(m: Memory, s: State, op: Op): Memory {
    match op
    case Save(user, p, _, _, _, faults) =>
      if Refused(BaseOf(s.t, user, p.name), p, s.keks, faults) || p.secret == [] then m else m[(user, p.name) := p.secret]
    case Remove(user, i) => if i in s.t && s.t[i].user == user then m - {(user, s.t[i].name)} else m
    case Rotate(_) => m
  }

  ghost function Run(s: State, ops: seq<Op>): State {
    if ops == [] then s else Apply(Run(s, ops[..|ops| - 1]), ops[|ops| - 1])
  }

  ghost function Memories(s: State, ops: seq<Op>): Memory {
    if ops == [] then map[]
    else Remember(Memories(s, ops[..|ops| - 1]), Run(s, ops[..|ops| - 1]), ops[|ops| - 1])
  }

  ghost predicate AllLegal(s: State, ops: seq<Op>, gcm: E.Aead) {
    ops == [] || (AllLegal(s, ops[..|ops| - 1], gcm) && Legal(Run(s, ops[..|ops| - 1]), ops[|ops| - 1], gcm))
  }

  ghost predicate RowHolds(r: Row, s: State, m: Memory, gcm: E.Aead) {
    Fits(r) && (r.user, r.name) in m && Plain(gcm, s.keks, r) == Ok(m[(r.user, r.name)])
  }

  ghost predicate Holds(s: State, m: Memory, gcm: E.Aead) {
    && OneRowPerName(s.t)
    && (forall i :: i in s.t ==> RowHolds(s.t[i], s, m, gcm))
    && (forall u, n :: (u, n) in m ==> RowOf(s.t, u, n).Some?)
  }

  /** What could be read before a rotation can be read after it. */
  lemma ExtendingKeepsPlain(gcm: E.Aead, keks: E.Keks, past: E.Keks, r: Row)
    requires Extends(keks, past) && Plain(gcm, past, r).Ok?
    ensures Plain(gcm, keks, r) == Plain(gcm, past, r)
  {}

  lemma PutKeepsRows(s: State, m: Memory, i: Id, row: Row, secret: E.Bytes, gcm: E.Aead)
    requires Holds(s, m, gcm) && RowOf(s.t, row.user, row.name) == (if i in s.t then Some(i) else None)
    requires Fits(row) && Plain(gcm, s.keks, row) == Ok(secret)
    ensures var s', m' := s.(t := s.t[i := row]), m[(row.user, row.name) := secret];
            forall j :: j in s'.t ==> RowHolds(s'.t[j], s', m', gcm)
  {
    var s', m' := s.(t := s.t[i := row]), m[(row.user, row.name) := secret];
    forall j | j in s'.t ensures RowHolds(s'.t[j], s', m', gcm) {
      if j != i {
        assert RowHolds(s.t[j], s, m, gcm);
        assert !IsRow(s.t[j], row.user, row.name);
      }
    }
  }

  /** Writing the row of one user and name, with a secret that is remembered for it. */
  lemma PutKeepsHolds(s: State, m: Memory, i: Id, row: Row, secret: E.Bytes, gcm: E.Aead)
    requires Holds(s, m, gcm) && RowOf(s.t, row.user, row.name) == (if i in s.t then Some(i) else None)
    requires Fits(row) && Plain(gcm, s.keks, row) == Ok(secret)
    ensures Holds(s.(t := s.t[i := row]), m[(row.user, row.name) := secret], gcm)
  {
    var s', m' := s.(t := s.t[i := row]), m[(row.user, row.name) := secret];
    PutKeepsOneRow(s.t, i, row);
    PutKeepsRows(s, m, i, row, secret, gcm);
    forall u, n | (u, n) in m' ensures RowOf(s'.t, u, n).Some? {
      if (u, n) == (row.user, row.name) {
        assert IsRow(s'.t[i], u, n);
      } else {
        var j := RowOf(s.t, u, n).value;
        assert j in s'.t && IsRow(s'.t[j], u, n);
      }
    }
  }

  ghost predicate Accepts(s: State, op: Op) {
    op.Save? && !Refused(BaseOf(s.t, op.user, op.p.name), op.p, s.keks, op.faults)
  }

  /** An edit without a secret changes the fields of the row it finds and nothing else. */
  lemma EditStep(s: State, m: Memory, op: Op)
    requires Accepts(s, op) && op.p.secret == []
    ensures var found := RowOf(s.t, op.user, op.p.name);
            found.Some? && Apply(s, op) == s.(t := s.t[found.value := Shaped(s.t[found.value], op.p)]) && Remember(m, s, op) == m
  {
    var i := RowOf(s.t, op.user, op.p.name).value;
    assert Shaped(s.t[i], op.p).(cipher := s.t[i].cipher) == Shaped(s.t[i], op.p);
  }

  lemma EditKeepsHolds(s: State, m: Memory, i: Id, p: Params, gcm: E.Aead)
    requires Holds(s, m, gcm) && i in s.t && RowOf(s.t, s.t[i].user, s.t[i].name) == Some(i)
    ensures Holds(s.(t := s.t[i := Shaped(s.t[i], p)]), m, gcm)
  {
    var key := (s.t[i].user, s.t[i].name);
    assert RowHolds(s.t[i], s, m, gcm);
    PutKeepsHolds(s, m, i, Shaped(s.t[i], p), m[key], gcm);
    assert m[key := m[key]] == m;
  }

  /** The row a save with a secret writes. */
  ghost function SealedRow(s: State, op: Op): Row
    requires op.Save?
  {
    var found := RowOf(s.t, op.user, op.p.name);
    Shaped(if found.Some? then s.t[found.value] else NewRow(op.user, op.p.name), op.p).(cipher := op.blob)
  }

  lemma SealStep(s: State, m: Memory, op: Op)
    requires Accepts(s, op) && op.p.secret != []
    ensures var found := RowOf(s.t, op.user, op.p.name);
            Apply(s, op) == s.(t := s.t[if found.Some? then found.value else op.newId := SealedRow(s, op)])
    ensures Remember(m, s, op) == m[(op.user, op.p.name) := op.p.secret]
  {}

  lemma SealedRowIs(s: State, op: Op)
    requires op.Save?
    ensures var row := SealedRow(s, op); Fits(row) && IsRow(row, op.user, op.p.name) && row.cipher == op.blob
  {}

  lemma SealedIsPlain(gcm: E.Aead, keks: E.Keks, row: Row, secret: E.Bytes, r: E.Rand)
    requires E.Lawful(gcm) && keks.Valid() && r.Valid() && Sealed(row.cipher, gcm, keks, secret, r)
    ensures Plain(gcm, keks, row) == Ok(secret)
  {
    E.RoundTripUnderRotation(gcm, keks, keks, secret, r, row.cipher);
  }

  lemma SealKeepsHolds(s: State, m: Memory, op: Op, i: Id, gcm: E.Aead)
    requires E.Lawful(gcm) && Holds(s, m, gcm) && op.Save? && op.r.Valid() && s.keks.Valid()
    requires Sealed(op.blob, gcm, s.keks, op.p.secret, op.r)
    requires RowOf(s.t, op.user, op.p.name) == if i in s.t then Some(i) else None
    ensures Holds(s.(t := s.t[i := SealedRow(s, op)]), m[(op.user, op.p.name) := op.p.secret], gcm)
  {
    SealedRowIs(s, op);
    SealedIsPlain(gcm, s.keks, SealedRow(s, op), op.p.secret, op.r);
    PutKeepsHolds(s, m, i, SealedRow(s, op), op.p.secret, gcm);
  }

  lemma AcceptedIdFits(s: State, op: Op)
    requires Accepts(s, op) && op.p.secret != []
    ensures |s.keks.active| <= 0xFF
  {}

  lemma AcceptedIsSealed(s: State, op: Op, gcm: E.Aead)
    requires Accepts(s, op) && Legal(s, op, gcm) && op.p.secret != []
    ensures s.keks.Valid() && op.r.Valid() && Sealed(op.blob, gcm, s.keks, op.p.secret, op.r)
  {
    AcceptedIdFits(s, op);
  }

  lemma NewSecretKeepsHolds(s: State, m: Memory, op: Op, gcm: E.Aead)
    requires E.Lawful(gcm) && Holds(s, m, gcm) && Accepts(s, op) && Legal(s, op, gcm) && op.p.secret != []
    ensures Holds(Apply(s, op), Remember(m, s, op), gcm)
  {
    var found := RowOf(s.t, op.user, op.p.name);
    AcceptedIsSealed(s, op, gcm);
    SealStep(s, m, op);
    SealKeepsHolds(s, m, op, if found.Some? then found.value else op.newId, gcm);
  }

  lemma OldSecretKeepsHolds(s: State, m: Memory, op: Op, gcm: E.Aead)
    requires Holds(s, m, gcm) && Accepts(s, op) && op.p.secret == []
    ensures Holds(Apply(s, op), Remember(m, s, op), gcm)
  {
    EditStep(s, m, op);
    EditKeepsHolds(s, m, RowOf(s.t, op.user, op.p.name).value, op.p, gcm);
  }

  lemma SaveKeepsHolds(s: State, m: Memory, op: Op, gcm: E.Aead)
    requires E.Lawful(gcm) && Holds(s, m, gcm) && op.Save? && Legal(s, op, gcm)
    ensures Holds(Apply(s, op), Remember(m, s, op), gcm)
  {
    if Accepts(s, op) {
      if op.p.secret != [] { NewSecretKeepsHolds(s, m, op, gcm); } else { OldSecretKeepsHolds(s, m, op, gcm); }
    }
  }

  lemma RemoveKeepsHolds(s: State, m: Memory, user: int, i: Id, gcm: E.Aead)
    requires Holds(s, m, gcm) && i in s.t && s.t[i].user == user
    ensures Holds(s.(t := s.t - {i}), m - {(user, s.t[i].name)}, gcm)
  {
    var s', m' := s.(t := s.t - {i}), m - {(user, s.t[i].name)};
    forall j | j in s'.t ensures RowHolds(s'.t[j], s', m', gcm) {
      assert RowHolds(s.t[j], s, m, gcm);
    }
    forall u, n | (u, n) in m' ensures RowOf(s'.t, u, n).Some? {
      var j := RowOf(s.t, u, n).value;
      assert j in s'.t && IsRow(s'.t[j], u, n);
    }
  }

  lemma RotateKeepsHolds(s: State, m: Memory, op: Op, gcm: E.Aead)
    requires Holds(s, m, gcm) && op.Rotate? && Legal(s, op, gcm)
    ensures Holds(Apply(s, op), Remember(m, s, op), gcm)
  {
    forall i | i in s.t ensures RowHolds(s.t[i], Apply(s, op), m, gcm) {
      assert RowHolds(s.t[i], s, m, gcm);
      ExtendingKeepsPlain(gcm, op.keks, s.keks, s.t[i]);
    }
  }

  lemma {:induction false} RunHolds(keks: E.Keks, ops: seq<Op>, gcm: E.Aead)
    requires E.Lawful(gcm) && AllLegal(State(map[], keks), ops, gcm)
    ensures Holds(Run(State(map[], keks), ops), Memories(State(map[], keks), ops), gcm)
  {
    if ops != [] {
      var before, last := ops[..|ops| - 1], ops[|ops| - 1];
      RunHolds(keks, before, gcm);
      var s, m := Run(State(map[], keks), before), Memories(State(map[], keks), before);
      match last
      case Save(_, _, _, _, _, _) => SaveKeepsHolds(s, m, last, gcm);
      case Remove(user, i) => if i in s.t && s.t[i].user == user { RemoveKeepsHolds(s, m, user, i, gcm); }
      case Rotate(_) => RotateKeepsHolds(s, m, last, gcm);
    }
  }

  /** After any history a reveal returns the last non-empty secret given for the user and name since its
      last deletion, under whatever KEKs are configured then, and nothing if there is none. */
  lemma RevealIsLastSecret(keks: E.Keks, ops: seq<Op>, gcm: E.Aead, user: int, name: string)
    requires E.Lawful(gcm) && AllLegal(State(map[], keks), ops, gcm)
    ensures var s, m := Run(State(map[], keks), ops), Memories(State(map[], keks), ops);
            match BaseOf(s.t, user, name)
            case None => (user, name) !in m
            case Some(row) => (user, name) in m && Plain(gcm, s.keks, row) == Ok(m[(user, name)])
  {
    RunHolds(keks, ops, gcm);
    var s, m := Run(State(map[], keks), ops), Memories(State(map[], keks), ops);
    var found := RowOf(s.t, user, name);
    if found.Some? { assert RowHolds(s.t[found.value], s, m, gcm); }
  }

  /** At most one row per user and name, and header and prefix always fit the stored kind. */
  lemma RowsAreWellFormed(keks: E.Keks, ops: seq<Op>, gcm: E.Aead)
    requires E.Lawful(gcm) && AllLegal(State(map[], keks), ops, gcm)
    ensures var t := Run(State(map[], keks), ops).t;
            OneRowPerName(t) && forall i :: i in t ==> Fits(t[i])
  {
    RunHolds(keks, ops, gcm);
    var s, m := Run(State(map[], keks), ops), Memories(State(map[], keks), ops);
    assert forall i :: i in s.t ==> RowHolds(s.t[i], s, m, gcm);
  }
}
