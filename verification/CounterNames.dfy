/** The names of Xray's user counters: how the collector builds them and how the client reads them
    (internal/stats/collector.go, internal/xrayapi/client.go). */
module CounterNames {
  import opened Rows
  import opened Sorting
  import opened Traffic

  /** One traffic counter of Xray: a user and a direction. */
  datatype Channel = Channel(email: Email, dir: Dir)

  function Word(dir: Dir): string {
    if dir == Up then "uplink" else "downlink"
  }

  function CounterKey(ch: Channel): string {
    "user>>>" + ch.email + ">>>traffic>>>" + Word(ch.dir)
  }

  function Suffix(dir: Dir): string {
    if dir == Up then ">>>traffic>>>uplink" else ">>>traffic>>>downlink"
  }

  lemma CounterKeyParts(ch: Channel)
    ensures var k, n := CounterKey(ch), |Suffix(ch.dir)|;
      |k| == 7 + |ch.email| + n && k[7..|k| - n] == ch.email && k[|k| - 5] == if ch.dir == Up then 'p' else 'n'
  {
    assert CounterKey(ch) == "user>>>" + ch.email + Suffix(ch.dir) by {
      assert ">>>traffic>>>" + "uplink" == Suffix(Up) && ">>>traffic>>>" + "downlink" == Suffix(Down);
    }
  }

  /** Different counters have different names. */
  lemma CounterKeyIsInjective(a: Channel, b: Channel)
    requires CounterKey(a) == CounterKey(b)
    ensures a == b
  {
    hide CounterKey, Suffix;
    CounterKeyParts(a);
    CounterKeyParts(b);
    assert a.dir == b.dir;
  }

  // ---------------------------------------------------------------------------------------------
  // Splitting a name

  const SEP := ">>>"

  /** strings.Split with the separator ">>>": the leftmost match first. */
  function Pieces(s: string): (r: seq<string>)
    ensures |r| >= 1
  {
    if SEP <= s then [""] + Pieces(s[3..])
    else if s == "" then [""]
    else
      var rest := Pieces(s[1..]);
      [[s[0]] + rest[0]] + rest[1..]
  }

  predicate SepAt(s: string, i: int) {
    0 <= i <= |s| - 3 && s[i] == '>' && s[i + 1] == '>' && s[i + 2] == '>'
  }

  predicate Contains(s: string) {
    exists i :: 0 <= i < |s| && SepAt(s, i)
  }

  /** A text that the separator after it cannot be mistaken for a part of. */
  predicate Readable(s: string) {
    !Contains(s) && (s != "" ==> s[|s| - 1] != '>')
  }

  lemma SepIsPrefix(s: string)
    ensures SEP <= s <==> SepAt(s, 0)
  {
    assert |s| >= 3 ==> (SEP == s[..3] <==> SEP[0] == s[0] && SEP[1] == s[1] && SEP[2] == s[2]);
  }

  lemma ReadableRest(s: string)
    requires Readable(s) && s != ""
    ensures Readable(s[1..])
  {
    if i :| 0 <= i < |s| - 1 && SepAt(s[1..], i) {
      assert SepAt(s, i + 1);
    }
  }

  lemma NoSepInFront(a: string, rest: string)
    requires Readable(a) && a != ""
    ensures !(SEP <= a + SEP + rest)
  {
    var s := a + SEP + rest;
    SepIsPrefix(s);
    assert SepAt(s, 0) ==> SepAt(a, 0);
  }

  /** A readable piece is read back from in front of the separator. */
  lemma {:induction false} PieceIsRead(a: string, rest: string)
    requires Readable(a)
    ensures Pieces(a + SEP + rest) == [a] + Pieces(rest)
  {
    hide Readable;
    var s := a + SEP + rest;
    if a == "" {
      assert s[3..] == rest;
    } else {
      NoSepInFront(a, rest);
      ReadableRest(a);
      PieceIsRead(a[1..], rest);
      assert s[1..] == a[1..] + SEP + rest;
      assert [s[0]] + a[1..] == a;
    }
  }

  /** The first of several pieces stands in front of a separator. */
  lemma {:induction false} FirstPiece(s: string) returns (rest: string)
    requires |Pieces(s)| > 1
    ensures Readable(Pieces(s)[0])
    ensures s == Pieces(s)[0] + SEP + rest && Pieces(s)[1..] == Pieces(rest)
  {
    if SEP <= s {
      rest := s[3..];
    } else {
      rest := FirstPiece(s[1..]);
      var p := Pieces(s[1..])[0];
      assert s == [s[0]] + (p + SEP + rest);
      FirstStaysReadable(s, p, rest);
    }
  }

  lemma FirstStaysReadable(s: string, p: string, rest: string)
    requires Readable(p) && s != "" && s[1..] == p + SEP + rest && !(SEP <= s)
    ensures Readable([s[0]] + p)
  {
    var q := [s[0]] + p;
    assert s == q + SEP + rest;
    SepIsPrefix(s);
    forall i | 0 <= i < |q| ensures !SepAt(q, i) {
      assert SepAt(q, i) <==> if i == 0 then |q| >= 3 && SepAt(s, 0) else SepAt(p, i - 1);
    }
    assert p == "" ==> s[1] == SEP[0] && s[2] == SEP[1];
  }

  /** No piece but the last contains the separator or ends like it begins. */
  lemma {:induction false} PiecesAreReadable(s: string, i: nat)
    requires i < |Pieces(s)| - 1
    ensures Readable(Pieces(s)[i])
    decreases i
  {
    var rest := FirstPiece(s);
    if i > 0 {
      PiecesAreReadable(rest, i - 1);
    }
  }

  // ---------------------------------------------------------------------------------------------
  // Reading a name

  datatype UserCounter = UserCounter(up: int, down: int) {
    function Of(dir: Dir): int {
      if dir == Up then up else down
    }
  }

  type UserCounters = map<Email, UserCounter>

  function EntryOf(out: UserCounters, e: Email): UserCounter {
    if e in out then out[e] else UserCounter(0, 0)
  }

  function WithValue(entry: UserCounter, word: string, value: int): UserCounter {
    if word == "uplink" then entry.(up := value) else if word == "downlink" then entry.(down := value) else entry
  }

  /** What one counter adds to the users read so far. */
  function ReadOne(out: UserCounters, name: string, value: int): UserCounters {
    var parts := Pieces(name);
    if !("user>>>" <= name) || |parts| < 4 then out
    else out[parts[1] := WithValue(EntryOf(out, parts[1]), parts[3], value)]
  }

  function ReadAll(stats: seq<(string, int)>): UserCounters {
    if stats == [] then map[]
    else
      var (name, value) := stats[|stats| - 1];
      ReadOne(ReadAll(stats[..|stats| - 1]), name, value)
  }

  /** One entry per user that some counter names, with the last value read in each direction. */
  method ParseUserCounters(stats: seq<(string, int)>) returns (out: UserCounters)
    ensures out == ReadAll(stats)
  {
    out := map[];
    for i := 0 to |stats|
      invariant out == ReadAll(stats[..i])
    {
      assert stats[..i + 1][..i] == stats[..i];
      var (name, val) := stats[i];
      if !("user>>>" <= name) {
        continue;
      }
      var parts := Pieces(name);
      if |parts| < 4 {
        continue;
      }
      var email, dir := parts[1], parts[3];
      var entry := if email in out then out[email] else UserCounter(0, 0);
      match dir {
        case "uplink" => entry := entry.(up := val);
        case "downlink" => entry := entry.(down := val);
        case _ =>
      }
      out := out[email := entry];
    }
    assert stats[..|stats|] == stats;
  }

  /** The user and the direction word that a counter is read as. */
  function ReadAs(ch: Channel): Option<(Email, string)> {
    var parts := Pieces(CounterKey(ch));
    if |parts| < 4 then None else Some((parts[1], parts[3]))
  }

  lemma KeyPieces(ch: Channel)
    ensures "user>>>" <= CounterKey(ch)
    ensures Pieces(CounterKey(ch)) == ["user"] + Pieces(ch.email + SEP + ("traffic" + SEP + Word(ch.dir)))
  {
    var rest := ch.email + SEP + ("traffic" + SEP + Word(ch.dir));
    assert "user" + SEP == "user>>>";
    assert SEP + ("traffic" + SEP) == ">>>traffic>>>";
    assert CounterKey(ch) == "user" + SEP + rest;
    PieceIsRead("user", rest);
  }

  lemma WordIsRead(dir: Dir)
    ensures Pieces("traffic" + SEP + Word(dir)) == ["traffic", Word(dir)]
  {
    PieceIsRead("traffic", Word(dir));
    NothingToSplit(Word(dir));
  }

  lemma {:induction false} NothingToSplit(s: string)
    requires '>' !in s
    ensures Pieces(s) == [s]
  {
    if s != "" {
      SepIsPrefix(s);
      NothingToSplit(s[1..]);
      assert s == [s[0]] + s[1..];
    }
  }

  /** Whatever a counter is called, the user read from its name is a readable email. */
  lemma UserReadIsReadable(c: Channel)
    requires ReadAs(c).Some?
    ensures Readable(ReadAs(c).value.0)
  {
    hide CounterKey, Readable, Pieces;
    PiecesAreReadable(CounterKey(c), 1);
  }

  /** A counter is read back as the user and the direction it counts if and only if the email neither
      contains the separator nor ends with a '>'. */
  lemma ReadBackExactlyWhen(ch: Channel)
    ensures ReadAs(ch) == Some((ch.email, Word(ch.dir))) <==> Readable(ch.email)
  {
    hide Readable, CounterKey, Pieces;
    if Readable(ch.email) {
      KeyPieces(ch);
      PieceIsRead(ch.email, "traffic" + SEP + Word(ch.dir));
      WordIsRead(ch.dir);
    }
    if ReadAs(ch) == Some((ch.email, Word(ch.dir))) {
      UserReadIsReadable(ch);
    }
  }

  /** Another counter that is read as this one. */
  predicate Impostor(c: Channel, ch: Channel) {
    c != ch && ReadAs(c) == Some((ch.email, Word(ch.dir)))
  }

  // ---------------------------------------------------------------------------------------------
  // Reading all counters

  /** The answer to a query: the live counters in some order. */
  function StatsOf(xray: map<Channel, int>, order: seq<Channel>): seq<(string, int)> {
    seq(|order|, i requires 0 <= i < |order| => (CounterKey(order[i]), Get(xray, order[i])))
  }

  ghost predicate Lists(order: seq<Channel>, xray: map<Channel, int>) {
    forall c :: c in order <==> c in xray
  }

  /** Both directions of every user read from the counters. */
  function SnapshotOf(xray: map<Channel, int>, order: seq<Channel>): map<Channel, int> {
    var users := ReadAll(StatsOf(xray, order));
    map ch | ch in (set e <- users.Keys, d <- {Up, Down} :: Channel(e, d)) :: users[ch.email].Of(ch.dir)
  }

  ghost predicate NoImpostors(order: seq<Channel>, ch: Channel) {
    forall c :: c in order ==> !Impostor(c, ch)
  }

  lemma ReadStep(out: UserCounters, c: Channel, value: int, ch: Channel)
    requires !Impostor(c, ch)
    ensures var after := ReadOne(out, CounterKey(c), value);
      && EntryOf(after, ch.email).Of(ch.dir) ==
           (if c == ch && Readable(ch.email) then value else EntryOf(out, ch.email).Of(ch.dir))
      && (forall e :: e in after <==> e in out || (ReadAs(c).Some? && e == ReadAs(c).value.0))
  {
    hide CounterKey, Pieces, Readable;
    KeyPieces(c);
    ReadBackExactlyWhen(ch);
  }

  /** Without an impostor the value read for a counter is its own; users read are readable, and every
      readable one is read. */
  lemma {:induction false} ReadingIsOwn(xray: map<Channel, int>, order: seq<Channel>, ch: Channel)
    requires NoImpostors(order, ch)
    ensures var users := ReadAll(StatsOf(xray, order));
      && EntryOf(users, ch.email).Of(ch.dir) == (if ch in order && Readable(ch.email) then Get(xray, ch) else 0)
      && (ch in order && Readable(ch.email) ==> ch.email in users)
      && (ch.email in users ==> Readable(ch.email))
  {
    hide ReadOne, Readable, CounterKey, ReadAs;
    if order != [] {
      var n := |order| - 1;
      var c := order[n];
      ReadingIsOwn(xray, order[..n], ch);
      assert StatsOf(xray, order)[..n] == StatsOf(xray, order[..n]);
      assert order == order[..n] + [c];
      ReadStep(ReadAll(StatsOf(xray, order[..n])), c, Get(xray, c), ch);
      if ReadAs(c).Some? {
        UserReadIsReadable(c);
      }
      ReadBackExactlyWhen(ch);
    }
  }

  /** What a query tells about one counter. */
  lemma SnapshotIsOwn(xray: map<Channel, int>, order: seq<Channel>, ch: Channel)
    requires Lists(order, xray) && NoImpostors(order, ch)
    ensures var snapshot := SnapshotOf(xray, order);
      && (ch in snapshot ==> Readable(ch.email) && snapshot[ch] == Get(xray, ch))
      && (ch in xray && Readable(ch.email) ==> ch in snapshot)
  {
    hide ReadAll, Readable, NoImpostors;
    ReadingIsOwn(xray, order, ch);
  }

  /** Only readable emails are ever read. */
  lemma {:induction false} SnapshotIsReadable(xray: map<Channel, int>, order: seq<Channel>, e: Email)
    ensures e in ReadAll(StatsOf(xray, order)) ==> Readable(e)
  {
    hide ReadOne, Readable, CounterKey, ReadAs;
    if order != [] {
      var n := |order| - 1;
      SnapshotIsReadable(xray, order[..n], e);
      assert StatsOf(xray, order)[..n] == StatsOf(xray, order[..n]);
      ReadAddsOne(ReadAll(StatsOf(xray, order[..n])), order[n], Get(xray, order[n]), e);
      if ReadAs(order[n]).Some? {
        UserReadIsReadable(order[n]);
      }
    }
  }

  lemma ReadAddsOne(out: UserCounters, c: Channel, value: int, e: Email)
    ensures e in ReadOne(out, CounterKey(c), value) ==> e in out || (ReadAs(c).Some? && e == ReadAs(c).value.0)
  {
    hide CounterKey, Pieces;
  }

  lemma {:induction false} ReadingsStayPositive(xray: map<Channel, int>, order: seq<Channel>, e: Email)
    requires forall c :: Get(xray, c) >= 0
    ensures var entry := EntryOf(ReadAll(StatsOf(xray, order)), e); entry.up >= 0 && entry.down >= 0
  {
    hide CounterKey, Pieces;
    if order != [] {
      var n := |order| - 1;
      ReadingsStayPositive(xray, order[..n], e);
      assert StatsOf(xray, order)[..n] == StatsOf(xray, order[..n]);
    }
  }

  /** An email with a '>' after it is read as the email without. */
  lemma TrailingMarkIsDropped(e: Email, dir: Dir)
    requires Readable(e)
    ensures Impostor(Channel(e + ">", dir), Channel(e, dir))
  {
    hide Pieces, CounterKey, Readable;
    var ch := Channel(e + ">", dir);
    var rest := ">traffic" + SEP + Word(dir);
    KeyPieces(ch);
    MarkMoves(e, Word(dir));
    PieceIsRead(e, rest);
    assert Readable(">traffic") by { OneMark(); }
    PieceIsRead(">traffic", Word(dir));
    NothingToSplit(Word(dir));
    assert Pieces(CounterKey(ch)) == ["user"] + ([e] + ([">traffic"] + [Word(dir)]));
  }

  lemma MarkMoves(e: string, word: string)
    ensures (e + ">") + SEP + ("traffic" + SEP + word) == e + SEP + (">traffic" + SEP + word)
  {
    assert ">" + SEP == SEP + ">";
    assert ">" + "traffic" == ">traffic";
  }

  lemma OneMark()
    ensures Readable(">traffic")
  {
  }
}
