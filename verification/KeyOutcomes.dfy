/** What the operations of ApiKeys accept and leave behind, said of names, kinds and fields themselves. */
module KeyOutcomes {
  import opened Basics
  import E = Envelope
  import opened ApiKeys

  /** The stored form of a kind. */
  function Wire(k: Kind): string {
    match k
    case Opaque => "opaque"
    case HeaderApiKey => "header_api_key"
    case HttpBasic => "http_basic"
    case UsernamePassword => "username_password"
    case Ssh => "ssh"
    case ConnectionString => "connection_string"
  }

  /** Each kind is read back from its stored form, and a text that is no stored form is opaque. */
  lemma WireRoundTrip(k: Kind, s: string)
    ensures FromWire(Wire(k)) == k
    ensures FromWire(s) == k && k != Opaque ==> s == Wire(k)
    ensures (forall l :: s != Wire(l)) ==> FromWire(s) == Opaque
  {
    if forall l :: s != Wire(l) {
      assert s != Wire(HeaderApiKey) && s != Wire(HttpBasic) && s != Wire(UsernamePassword);
      assert s != Wire(Ssh) && s != Wire(ConnectionString);
    }
  }

  /** The code points that count as space. */
  lemma SpaceCodes(c: char)
    ensures IsSpace(c) <==>
            var n := c as int;
            9 <= n <= 13 || n == 32 || n == 133 || n == 160 || n == 5760 || 8192 <= n <= 8202 || n == 8232 || n == 8233
            || n == 8239 || n == 8287 || n == 12288
  {}

  ghost predicate AllSpace(s: string) {
    forall i :: 0 <= i < |s| ==> IsSpace(s[i])
  }

  /** `left` is the word without the spaces at its start, `r` that without those at its end. */
  lemma PartsOfWord(s: string, left: string, r: string)
    requires |left| <= |s| && s[|s| - |left|..] == left && forall i :: 0 <= i < |s| - |left| ==> IsSpace(s[i])
    requires |r| <= |left| && left[..|r|] == r && forall i :: |r| <= i < |left| ==> IsSpace(left[i])
    requires left == "" || !IsSpace(left[0])
    requires r == "" || !IsSpace(r[|r| - 1])
    ensures var lo, hi := |s| - |left|, |s| - |left| + |r|;
            && r == s[lo..hi] && (forall i :: 0 <= i < lo || hi <= i < |s| ==> IsSpace(s[i]))
            && (lo < hi ==> !IsSpace(s[lo]) && !IsSpace(s[hi - 1]))
  {
    var lo := |s| - |left|;
    forall i | lo <= i < |s| ensures s[i] == left[i - lo] {}
  }

  lemma {:induction false} LeftIsSpace(s: string)
    ensures forall i :: 0 <= i < |s| - |TrimLeft(s)| ==> IsSpace(s[i])
  {
    if s != "" && IsSpace(s[0]) {
      LeftIsSpace(s[1..]);
      assert forall i :: 1 <= i < |s| ==> s[i] == s[1..][i - 1];
    }
  }

  lemma {:induction false} RightIsSpace(s: string)
    ensures forall i :: |TrimRight(s)| <= i < |s| ==> IsSpace(s[i])
  {
    if s != "" && IsSpace(s[|s| - 1]) {
      RightIsSpace(s[..|s| - 1]);
      assert forall i :: 0 <= i < |s| - 1 ==> s[i] == s[..|s| - 1][i];
    }
  }

  /** Trimming takes away the spaces at both ends and nothing else. */
  lemma TrimMeans(s: string) returns (lo: nat, hi: nat)
    ensures lo <= hi <= |s| && Trim(s) == s[lo..hi]
    ensures forall i :: 0 <= i < lo || hi <= i < |s| ==> IsSpace(s[i])
    ensures lo < hi ==> !IsSpace(s[lo]) && !IsSpace(s[hi - 1])
  {
    lo := |s| - |TrimLeft(s)|;
    hi := lo + |Trim(s)|;
    LeftIsSpace(s);
    RightIsSpace(TrimLeft(s));
    PartsOfWord(s, TrimLeft(s), Trim(s));
  }

  lemma BlankIffAllSpace(s: string)
    ensures Trim(s) == "" <==> AllSpace(s)
  {
    var lo, hi := TrimMeans(s);
  }

  lemma TrimKeepsColon(s: string)
    ensures ':' in Trim(s) <==> ':' in s
  {
    var lo, hi := TrimMeans(s);
    SpaceCodes(':');
    if i :| 0 <= i < |s| && s[i] == ':' {
      assert Trim(s)[i - lo] == ':';
    }
  }

  /** When Create fails, and with which error: of the reasons that apply the first in this order. */
  lemma RefusesFor(base: Option<Row>, p: Params, keks: E.Keks, faults: Faults)
    ensures var r := Refusal(base, p, keks, faults);
            var named, plain := !AllSpace(p.name), ':' !in p.username;
            var unsealed := p.secret != [] && |keks.active| > 255;
            var secretless := p.secret == [] && base.None?;
            var loginless := p.secret == [] && base.Some? && base.value.cipher == [] && !AllSpace(p.username);
            && (r == Some(NameRequired) <==> !named)
            && (r == Some(ColonInUsername) <==> named && !plain)
            && (r == Some(SecretRequired) <==> named && plain && !faults.find && secretless)
            && (r == Some(PasswordRequired) <==> named && plain && !faults.find && loginless)
            && (r == Some(Cipher(E.KekIdTooLong)) <==> named && plain && !faults.find && unsealed)
            && (r == Some(StoreFailed) <==> named && plain && (faults.find || (!secretless && !loginless && !unsealed && faults.write)))
            && (r == None <==> named && plain && !faults.find && !faults.write && !secretless && !loginless && !unsealed)
  {
    BlankIffAllSpace(p.name);
    BlankIffAllSpace(p.username);
    TrimKeepsColon(p.username);
  }

  /** The fields a save leaves in a row. Only Basic and header keys have a header: Basic always, and no prefix;
      a header key the given ones. */
  lemma SavedFields(r: Row, p: Params)
    ensures var r' := Shaped(r, p);
            && r'.user == r.user && r'.name == r.name && r'.cipher == r.cipher && r'.kind == FromWire(p.kind)
            && r'.description == p.description && r'.baseUrl == p.baseUrl && r'.docsUrl == p.docsUrl
            && (AllSpace(p.username) ==> r'.username == None) && (!AllSpace(p.username) ==> r'.username == Some(Trim(p.username)))
            && (p.kind == "http_basic" ==>
                  r'.header == Some(if AllSpace(p.header) then "Authorization" else Trim(p.header)) && r'.prefix == None)
            && (p.kind == "header_api_key" ==>
                  r'.header == (if AllSpace(p.header) then None else Some(Trim(p.header))) && r'.prefix == p.prefix)
            && (p.kind != "http_basic" && p.kind != "header_api_key" ==> r'.header == None && r'.prefix == None)
  {
    BlankIffAllSpace(p.username);
    BlankIffAllSpace(p.header);
    WireRoundTrip(FromWire(p.kind), p.kind);
  }

  /** A save writes the row of that user and name, with the sealed secret or the one it had, and no other row. */
  lemma EditTouchesOneRow(t: Table, user: int, p: Params, blob: E.Bytes, newId: Id, i: Id)
    requires OneRowPerName(t) && i in t && t[i].user == user && t[i].name == p.name
    ensures Saved(t, user, p, blob, newId)
            == t[i := Shaped(t[i], p).(cipher := if p.secret == [] then t[i].cipher else blob)]
  {
    RevealFindsTheRow(t, user, p.name, i);
  }

  /** Without such a row it writes a new one, and no other row. */
  lemma CreateTouchesOneRow(t: Table, user: int, p: Params, blob: E.Bytes, newId: Id)
    requires forall j :: j in t ==> t[j].user != user || t[j].name != p.name
    ensures Saved(t, user, p, blob, newId) == t[newId := Shaped(NewRow(user, p.name), p).(cipher := blob)]
  {
    assert RowOf(t, user, p.name).None?;
  }

  /** A row is deleted by its id, and only by its user. */
  lemma DeletesOwnRow(t: Table, user: int, i: Id)
    ensures var t' := Without(t, user, i);
            && (forall j :: j in t' <==> j in t && !(j == i && t[j].user == user))
            && (forall j :: j in t' ==> t'[j] == t[j])
  {}

  /** Reveal finds the row of that user and name, and reads its secret. */
  lemma RevealFindsTheRow(t: Table, user: int, name: string, i: Id)
    requires OneRowPerName(t)
    ensures RowOf(t, user, name) == Some(i) <==> i in t && t[i].user == user && t[i].name == name
  {}
}
