/** FIX tag=value framing: building, parsing, and cutting messages out of a byte stream. */
module FixFraming {
  import opened Options
  import opened OrderIds

  const SOH: char := 1 as char
  const TARGET := "EXCHANGE"

  datatype Field = Field(tag: string, value: string)
  {
    function Text(): string {
      tag + "=" + value + [SOH]
    }
  }

  function Join(fs: seq<Field>): string {
    if fs == [] then "" else fs[0].Text() + Join(fs[1..])
  }

  // ---- Building ----

  function ByteSum(s: string): nat {
    if s == "" then 0 else s[0] as int + ByteSum(s[1..])
  }

  /** Three digits: the sum of all bytes modulo 256 (FIX 4.2, appendix B). */
  function Checksum(s: string): string {
    var n := ByteSum(s) % 256;
    [DigitChar(n / 100), DigitChar(n / 10 % 10), DigitChar(n % 10)]
  }

  /** The sum of bytes, told from its value on nothing, on one byte and on a concatenation. */
  lemma {:induction false} ByteSumLaws(a: string, b: string, c: char)
    ensures ByteSum("") == 0 && ByteSum([c]) == c as int
    ensures ByteSum(a + b) == ByteSum(a) + ByteSum(b)
  {
    assert [c][1..] == "";
    if a == "" {
      assert a + b == b;
    } else {
      assert (a + b)[1..] == a[1..] + b;
      ByteSumLaws(a[1..], b, c);
    }
  }

  lemma {:induction false} ChecksumIs(s: string)
    ensures |Checksum(s)| == 3 && (forall i :: 0 <= i < 3 ==> IsDigit(Checksum(s)[i]))
    ensures Value(Checksum(s)) == ByteSum(s) % 256
  {
    hide ByteSum;
    ThreeDigits(ByteSum(s) % 256);
  }

  lemma {:induction false} ThreeDigits(n: nat)
    requires n < 1000
    ensures Value([DigitChar(n / 100), DigitChar(n / 10 % 10), DigitChar(n % 10)]) == n
  {
    hide Value;
    ValueOfThree(n / 100, n / 10 % 10, n % 10);
  }

  lemma {:induction false} ValueOfThree(a: nat, b: nat, c: nat)
    requires a < 10 && b < 10 && c < 10
    ensures Value([DigitChar(a), DigitChar(b), DigitChar(c)]) == a * 100 + b * 10 + c
  {
    hide Value;
    ValueOfOneMore([], DigitChar(a));
    ValueOfOneMore([DigitChar(a)], DigitChar(b));
    ValueOfOneMore([DigitChar(a), DigitChar(b)], DigitChar(c));
    assert [DigitChar(a), DigitChar(b)] + [DigitChar(c)] == [DigitChar(a), DigitChar(b), DigitChar(c)];
    assert [DigitChar(a)] + [DigitChar(b)] == [DigitChar(a), DigitChar(b)];
    assert [] + [DigitChar(a)] == [DigitChar(a)];
    assert Value([]) == 0 by { ValueOfNone(); }
  }

  lemma {:induction false} ValueOfNone()
    ensures Value([]) == 0
  {
  }

  lemma {:induction false} ValueOfOneMore(s: string, c: char)
    requires IsDigit(c) && forall i :: 0 <= i < |s| ==> IsDigit(s[i])
    ensures Value(s + [c]) == Value(s) * 10 + (c as int - '0' as int)
  {
    assert (s + [c])[..|s|] == s;
  }

  /** A message to send; the time stamp is given. */
  datatype Msg = Msg(msgType: string, seqNo: nat, sender: string, time: string, fields: seq<Field>)
  {
    function Body(): seq<Field> {
      [Field("35", msgType), Field("49", sender), Field("56", TARGET), Field("34", Digits(seqNo)),
       Field("52", time)] + fields
    }

    /** Everything before the trailer. */
    function Head(): seq<Field> {
      [Field("8", "FIX.4.2"), Field("9", Digits(|Join(Body())|))] + Body()
    }

    function Trailer(): Field {
      Field("10", Checksum(Join(Head())))
    }
  }

  function Build(m: Msg): string {
    Join(m.Head()) + m.Trailer().Text()
  }

  lemma {:induction false} JoinAppend(a: seq<Field>, b: seq<Field>)
    ensures Join(a + b) == Join(a) + Join(b)
  {
    if a == [] {
      assert a + b == b;
    } else {
      assert (a + b)[1..] == a[1..] + b;
      JoinAppend(a[1..], b);
    }
  }

  lemma {:induction false} BuildIsJoin(m: Msg)
    ensures Build(m) == Join(m.Head() + [m.Trailer()])
  {
    JoinAppend(m.Head(), [m.Trailer()]);
    assert [m.Trailer()][1..] == [];
    assert Join([m.Trailer()]) == m.Trailer().Text() + "";
  }

  // ---- Parsing ----

  /** The position of the first c at or after i, or |s|. */
  function Index(s: string, c: char, i: nat): (k: nat)
    requires i <= |s|
    ensures i <= k <= |s| && (k < |s| ==> s[k] == c)
    ensures forall j :: i <= j < k ==> s[j] != c
    decreases |s| - i
  {
    if i == |s| || s[i] == c then i else Index(s, c, i + 1)
  }

  /** The pieces between occurrences of SOH. */
  function Split(s: string): seq<string>
    decreases |s|
  {
    var k := Index(s, SOH, 0);
    if k == |s| then [s] else [s[..k]] + Split(s[k + 1..])
  }

  /** The dictionary a list of pieces fills: a piece without '=' is ignored, a later tag wins. */
  function Collect(pieces: seq<string>): map<string, string> {
    if pieces == [] then map[]
    else
      var last := pieces[|pieces| - 1];
      var m := Collect(pieces[..|pieces| - 1]);
      var k := Index(last, '=', 0);
      if k < |last| then m[last[..k] := last[k + 1..]] else m
  }

  method Parse(raw: string) returns (out: map<string, string>)
    ensures out == Collect(Split(raw))
  {
    out := map[];
    var pieces := Split(raw);
    for i := 0 to |pieces|
      invariant out == Collect(pieces[..i])
    {
      var pair := pieces[i];
      var k := Index(pair, '=', 0);
      assert pieces[..i + 1][..i] == pieces[..i];
      if k < |pair| {
        out := out[pair[..k] := pair[k + 1..]];
      }
    }
    assert pieces[..|pieces|] == pieces;
  }

  /** The dictionary a list of fields denotes. */
  function ToMap(fs: seq<Field>): map<string, string> {
    if fs == [] then map[] else ToMap(fs[..|fs| - 1])[fs[|fs| - 1].tag := fs[|fs| - 1].value]
  }

  predicate Plain(f: Field) {
    '=' !in f.tag && SOH !in f.tag && SOH !in f.value
  }

  predicate AllPlain(fs: seq<Field>) {
    forall i :: 0 <= i < |fs| ==> Plain(fs[i])
  }

  function Pair(f: Field): string {
    f.tag + "=" + f.value
  }

  lemma {:induction false} IndexSkips(a: string, c: char, b: string)
    requires c !in a
    ensures Index(a + [c] + b, c, 0) == |a|
  {
    var s := a + [c] + b;
    assert s[|a|] == c;
    assert forall j :: 0 <= j < |a| ==> s[j] == a[j] && a[j] in a;
  }

  lemma {:induction false} SplitCons(a: string, b: string)
    requires SOH !in a
    ensures Split(a + [SOH] + b) == [a] + Split(b)
  {
    IndexSkips(a, SOH, b);
    var s := a + [SOH] + b;
    assert s[..|a|] == a && s[|a| + 1..] == b;
  }

  function Pairs(fs: seq<Field>): seq<string> {
    seq(|fs|, i requires 0 <= i < |fs| => Pair(fs[i]))
  }

  lemma {:induction false} SplitJoin(fs: seq<Field>)
    requires AllPlain(fs)
    ensures Split(Join(fs)) == Pairs(fs) + [""]
  {
    if fs == [] {
      assert Split("") == [""];
    } else {
      hide Split, Plain;
      var pair, rest := Pair(fs[0]), fs[1..];
      assert SOH !in pair by { PairIsPlain(fs[0]); }
      assert Join(fs) == pair + [SOH] + Join(rest);
      SplitCons(pair, Join(rest));
      SplitJoin(rest);
      assert Pairs(fs) == [pair] + Pairs(rest);
      assert [pair] + (Pairs(rest) + [""]) == [pair] + Pairs(rest) + [""];
    }
  }

  lemma {:induction false} PairIsPlain(f: Field)
    requires Plain(f)
    ensures SOH !in Pair(f)
  {
  }

  lemma {:induction false} CollectPairs(fs: seq<Field>)
    requires AllPlain(fs)
    ensures Collect(Pairs(fs)) == ToMap(fs)
    decreases |fs|
  {
    if fs != [] {
      var n := |fs| - 1;
      assert Pairs(fs)[..n] == Pairs(fs[..n]);
      CollectPairs(fs[..n]);
      var f := fs[n];
      assert Plain(f);
      assert Pair(f) == f.tag + ['='] + f.value;
      IndexSkips(f.tag, '=', f.value);
      assert Pair(f)[..|f.tag|] == f.tag && Pair(f)[|f.tag| + 1..] == f.value;
    }
  }

  /** Parsing undoes joining, for tags without '=' and texts without SOH. */
  lemma {:induction false} ParseJoin(fs: seq<Field>)
    requires AllPlain(fs)
    ensures Collect(Split(Join(fs))) == ToMap(fs)
  {
    SplitJoin(fs);
    CollectPairs(fs);
    assert (Pairs(fs) + [""])[..|fs|] == Pairs(fs);
  }

  lemma {:induction false} LastFieldWins(fs: seq<Field>, i: nat)
    requires i < |fs| && forall j :: i < j < |fs| ==> fs[j].tag != fs[i].tag
    ensures fs[i].tag in ToMap(fs) && ToMap(fs)[fs[i].tag] == fs[i].value
    decreases |fs|
  {
    if i < |fs| - 1 {
      LastFieldWins(fs[..|fs| - 1], i);
    }
  }

  predicate DistinctTags(fs: seq<Field>) {
    forall i, j :: 0 <= i < j < |fs| ==> fs[i].tag != fs[j].tag
  }

  lemma {:induction false} SplitIsPlain(s: string)
    ensures forall i :: 0 <= i < |Split(s)| ==> SOH !in Split(s)[i]
    decreases |s|
  {
    var k := Index(s, SOH, 0);
    if k < |s| {
      SplitIsPlain(s[k + 1..]);
    }
  }

  /** Whatever the pieces are, no tag read from them contains '=', and nothing contains SOH. */
  lemma {:induction false} CollectIsPlain(pieces: seq<string>)
    requires forall i :: 0 <= i < |pieces| ==> SOH !in pieces[i]
    ensures forall tag :: tag in Collect(pieces) ==> Plain(Field(tag, Collect(pieces)[tag]))
  {
    if pieces != [] {
      var last := pieces[|pieces| - 1];
      CollectIsPlain(pieces[..|pieces| - 1]);
      var k := Index(last, '=', 0);
      if k < |last| {
        assert '=' !in last[..k] && SOH !in last[..k] && SOH !in last[k + 1..];
      }
    }
  }

  /** Fields with different tags survive joining and parsing if and only if no tag contains '='
      and no text contains SOH. */
  lemma {:induction false} ParseJoinIff(fs: seq<Field>)
    requires DistinctTags(fs)
    ensures Collect(Split(Join(fs))) == ToMap(fs) <==> AllPlain(fs)
  {
    hide Collect, Split, Join;
    if AllPlain(fs) {
      ParseJoin(fs);
    }
    SplitIsPlain(Join(fs));
    CollectIsPlain(Split(Join(fs)));
    forall i | 0 <= i < |fs|
      ensures fs[i].tag in ToMap(fs) && ToMap(fs)[fs[i].tag] == fs[i].value
    {
      LastFieldWins(fs, i);
    }
    assert forall i :: 0 <= i < |fs| ==> Field(fs[i].tag, fs[i].value) == fs[i];
  }

  /** No body field has this tag. */
  predicate Unused(m: Msg, tag: string) {
    forall i :: 0 <= i < |m.fields| ==> m.fields[i].tag != tag
  }

  /** The i-th body field is the last with its tag. */
  predicate Final(m: Msg, i: nat)
    requires i < |m.fields|
  {
    m.fields[i].tag != "10" && forall j :: i < j < |m.fields| ==> m.fields[j].tag != m.fields[i].tag
  }

  predicate Reads(out: map<string, string>, tag: string, value: string) {
    tag in out && out[tag] == value
  }

  predicate ReadsNumber(out: map<string, string>, tag: string, n: nat) {
    && tag in out && (forall i :: 0 <= i < |out[tag]| ==> IsDigit(out[tag][i]))
    && Value(out[tag]) == n
  }

  /** Parsing a message built from tags without '=' and texts without SOH returns every
      header, body and trailer field, later tags winning. CheckSum is three digits for the sum
      of all bytes before it modulo 256. Unless a body field has the same tag, the header
      gives version, message type, sender, target, sequence number and time, and BodyLength
      is the length of what lies between it and the trailer. A body field comes back unless
      a later one has its tag, or it is called "10". If all tags differ, the fields come
      back only from such messages. */
  lemma {:induction false} ParseBuilt(m: Msg)
    ensures var out, fs := Collect(Split(Build(m))), m.Head() + [m.Trailer()];
            && (AllPlain(m.Head()) ==>
                  && out == ToMap(fs)
                  && ReadsNumber(out, "10", ByteSum(Join(m.Head())) % 256) && |out["10"]| == 3
                  && (Unused(m, "8") ==> Reads(out, "8", "FIX.4.2"))
                  && (Unused(m, "9") ==> ReadsNumber(out, "9", |Join(m.Body())|))
                  && (Unused(m, "35") ==> Reads(out, "35", m.msgType))
                  && (Unused(m, "49") ==> Reads(out, "49", m.sender))
                  && (Unused(m, "56") ==> Reads(out, "56", "EXCHANGE"))
                  && (Unused(m, "34") ==> ReadsNumber(out, "34", m.seqNo))
                  && (Unused(m, "52") ==> Reads(out, "52", m.time))
                  && (forall i :: 0 <= i < |m.fields| && Final(m, i) ==>
                        Reads(out, m.fields[i].tag, m.fields[i].value)))
            && Build(m) == Join(m.Head()[..2]) + Join(m.Body()) + m.Trailer().Text()
            && (DistinctTags(fs) ==> (out == ToMap(fs) <==> AllPlain(m.Head())))
  {
    hide Join, ToMap, Collect, Split, Checksum, DistinctTags, Value, ByteSum, Plain, ReadsNumber;
    var fs := m.Head() + [m.Trailer()];
    BuildIsJoin(m);
    BodyApart(m);
    assert AllPlain(fs) <==> AllPlain(m.Head()) by { TrailerPlain(m); }
    if DistinctTags(fs) {
      ParseJoinIff(fs);
    }
    if AllPlain(m.Head()) {
      ParseJoin(fs);
      HeaderFields(m);
      BodyFields(m);
    }
  }

  lemma {:induction false} TrailerPlain(m: Msg)
    ensures AllPlain(m.Head() + [m.Trailer()]) <==> AllPlain(m.Head())
  {
    hide Join, Checksum;
    var fs := m.Head() + [m.Trailer()];
    assert Plain(m.Trailer()) by { ChecksumPlain(Join(m.Head())); }
    assert forall i :: 0 <= i < |m.Head()| ==> fs[i] == m.Head()[i];
  }

  lemma {:induction false} BodyApart(m: Msg)
    ensures Join(m.Head()) == Join(m.Head()[..2]) + Join(m.Body())
  {
    hide Join;
    JoinAppend(m.Head()[..2], m.Body());
    assert m.Head() == m.Head()[..2] + m.Body();
  }

  lemma {:induction false} HeaderFields(m: Msg)
    ensures var out := ToMap(m.Head() + [m.Trailer()]);
            && ReadsNumber(out, "10", ByteSum(Join(m.Head())) % 256) && |out["10"]| == 3
            && (Unused(m, "8") ==> Reads(out, "8", "FIX.4.2"))
            && (Unused(m, "9") ==> ReadsNumber(out, "9", |Join(m.Body())|))
            && (Unused(m, "35") ==> Reads(out, "35", m.msgType))
            && (Unused(m, "49") ==> Reads(out, "49", m.sender))
            && (Unused(m, "56") ==> Reads(out, "56", "EXCHANGE"))
            && (Unused(m, "34") ==> ReadsNumber(out, "34", m.seqNo))
            && (Unused(m, "52") ==> Reads(out, "52", m.time))
  {
    hide Join, ToMap, Checksum, ByteSum, Value;
    var fs := m.Head() + [m.Trailer()];
    forall k: nat | k < 7 && Unused(m, fs[k].tag)
      ensures Reads(ToMap(fs), fs[k].tag, fs[k].value)
    {
      HeaderField(m, k);
    }
    assert fs[0].tag == "8" && fs[1].tag == "9" && fs[2].tag == "35" && fs[3].tag == "49";
    assert fs[4].tag == "56" && fs[5].tag == "34" && fs[6].tag == "52";
    DigitsValue(|Join(m.Body())|);
    DigitsValue(m.seqNo);
    ChecksumIs(Join(m.Head()));
    LastFieldWins(fs, |m.Head()|);
  }

  lemma {:induction false} HeaderField(m: Msg, k: nat)
    requires k < 7 && Unused(m, m.Head()[k].tag)
    ensures Reads(ToMap(m.Head() + [m.Trailer()]), m.Head()[k].tag, m.Head()[k].value)
  {
    hide Join, ToMap, Checksum, Digits;
    var fs := m.Head() + [m.Trailer()];
    forall j | k < j < |fs|
      ensures fs[j].tag != fs[k].tag
    {
      if 7 <= j < |m.Head()| {
        assert fs[j] == m.fields[j - 7];
      }
    }
    LastFieldWins(fs, k);
  }

  lemma {:induction false} BodyFields(m: Msg)
    ensures var out := ToMap(m.Head() + [m.Trailer()]);
            forall i :: 0 <= i < |m.fields| && Final(m, i) ==> Reads(out, m.fields[i].tag, m.fields[i].value)
  {
    hide Join, ToMap, Checksum, Digits;
    var fs := m.Head() + [m.Trailer()];
    forall i | 0 <= i < |m.fields| && Final(m, i)
      ensures Reads(ToMap(fs), m.fields[i].tag, m.fields[i].value)
    {
      assert fs[i + 7] == m.fields[i];
      forall j | i + 7 < j < |fs|
        ensures fs[j].tag != m.fields[i].tag
      {
        if j < |m.Head()| {
          assert fs[j] == m.fields[j - 7];
        }
      }
      LastFieldWins(fs, i + 7);
    }
  }

  lemma {:induction false} ChecksumPlain(s: string)
    ensures |Checksum(s)| == 3 && forall i :: 0 <= i < 3 ==> IsDigit(Checksum(s)[i])
    ensures SOH !in Checksum(s) && '=' !in "10" && SOH !in "10"
  {
  }

  // ---- Cutting messages out of a stream ----

  /** "10=" stands at position j. */
  predicate Mark(s: string, j: nat) {
    j + 3 <= |s| && s[j] == '1' && s[j + 1] == '0' && s[j + 2] == '='
  }

  function FindMark(s: string, i: nat): (k: nat)
    requires i <= |s|
    ensures i <= k <= |s| && (k < |s| ==> Mark(s, k))
    ensures forall j :: i <= j < k ==> !Mark(s, j)
    decreases |s| - i
  {
    if i == |s| || Mark(s, i) then i else FindMark(s, i + 1)
  }

  /** How much of the buffer the first complete message takes, if there is one. */
  function Cut(s: string): (c: Option<nat>)
    ensures c.Some? ==> 0 < c.value <= |s|
  {
    var e := FindMark(s, 0);
    if e == |s| then None
    else
      var p := Index(s, SOH, e);
      if p == |s| then None else Some(p + 1)
  }

  /** A complete message found in the buffer is the one that more data would show. */
  lemma {:induction false} CutStable(a: string, b: string)
    requires Cut(a).Some?
    ensures Cut(a + b) == Cut(a)
  {
    var s, e := a + b, FindMark(a, 0);
    var p := Index(a, SOH, e);
    assert Mark(s, e);
    forall j | 0 <= j < e
      ensures !Mark(s, j)
    {
      assert !Mark(a, j);
    }
    assert FindMark(s, 0) == e;
    assert s[p] == SOH;
    assert forall j :: e <= j < p ==> s[j] == a[j];
  }

  function Concat(chunks: seq<string>): string {
    if chunks == [] then "" else chunks[0] + Concat(chunks[1..])
  }

  /** The messages a stream contains, one after the other. */
  function Frames(s: string): seq<string>
    decreases |s|
  {
    match Cut(s)
    case None => []
    case Some(c) => [s[..c]] + Frames(s[c..])
  }

  predicate Chunks(chunks: seq<string>) {
    forall i :: 0 <= i < |chunks| ==> chunks[i] != ""
  }

  class FixSession {
    var buf: string

    constructor ()
      ensures buf == ""
    {
      buf := "";
    }

    /** One message from the buffer and the chunks the socket delivers; an end of input without
        a complete message is an error. The result depends on the bytes, not on how they arrive. */
    method RecvRaw(chunks: seq<string>) returns (r: Option<string>, rest: seq<string>)
      requires Chunks(chunks)
      modifies this
      ensures Chunks(rest)
      ensures var s := old(buf) + Concat(chunks);
              match Cut(s)
              case None => r == None && buf == s && rest == []
              case Some(c) => r == Some(s[..c]) && buf + Concat(rest) == s[c..]
    {
      ghost var s := buf + Concat(chunks);
      rest := chunks;
      while true
        invariant Chunks(rest) && s == buf + Concat(rest)
        decreases |rest|
      {
        var end := FindMark(buf, 0);
        if end < |buf| {
          var soh := Index(buf, SOH, end);
          if soh < |buf| {
            CutStable(buf, Concat(rest));
            r := Some(buf[..soh + 1]);
            assert s[..soh + 1] == buf[..soh + 1] && s[soh + 1..] == buf[soh + 1..] + Concat(rest);
            buf := buf[soh + 1..];
            return;
          }
        }
        if rest == [] {
          assert s == buf;
          return None, rest;
        }
        assert buf + Concat(rest) == buf + rest[0] + Concat(rest[1..]);
        buf, rest := buf + rest[0], rest[1..];
      }
    }

    /** All messages until the input ends. */
    method RecvAll(chunks: seq<string>) returns (out: seq<string>)
      requires Chunks(chunks)
      modifies this
      ensures out == Frames(old(buf) + Concat(chunks))
    {
      ghost var all := Frames(buf + Concat(chunks));
      out := [];
      var rest := chunks;
      while true
        invariant Chunks(rest) && all == out + Frames(buf + Concat(rest))
        decreases |buf + Concat(rest)|
      {
        ghost var s := buf + Concat(rest);
        var r, rest' := RecvRaw(rest);
        if r == None {
          return;
        }
        assert all == out + ([r.value] + Frames(buf + Concat(rest')));
        out, rest := out + [r.value], rest';
      }
    }
  }

  // ---- When a built message is cut out whole ----

  /** The stream's first message ends exactly where m does. */
  predicate Whole(m: string) {
    Cut(m) == Some(|m|)
  }

  /** A stream of whole messages, split into chunks in any way, is received message by message. */
  lemma {:induction false} FramesOfMessages(ms: seq<string>)
    requires forall i :: 0 <= i < |ms| ==> Whole(ms[i])
    ensures Frames(Concat(ms)) == ms
  {
    if ms != [] {
      assert Whole(ms[0]);
      CutStable(ms[0], Concat(ms[1..]));
      var s := Concat(ms);
      assert s[..|ms[0]|] == ms[0] && s[|ms[0]|..] == Concat(ms[1..]);
      FramesOfMessages(ms[1..]);
    }
  }

  predicate HasMark(s: string) {
    exists j :: 0 <= j < |s| && Mark(s, j)
  }

  /** A mark cannot straddle a separator. */
  lemma {:induction false} MarkAcross(a: string, b: string)
    ensures HasMark(a + [SOH] + b) <==> HasMark(a) || HasMark(b)
  {
    var s := a + [SOH] + b;
    if HasMark(s) {
      var j :| 0 <= j < |s| && Mark(s, j);
      assert s[|a|] == SOH;
      if j < |a| {
        assert Mark(a, j);
      } else {
        assert Mark(b, j - |a| - 1);
      }
    }
    if HasMark(a) {
      var j :| 0 <= j < |a| && Mark(a, j);
      assert Mark(s, j);
    }
    if HasMark(b) {
      var j :| 0 <= j < |b| && Mark(b, j);
      assert Mark(s, j + |a| + 1);
    }
  }

  /** "10=" occurs in joined fields exactly if it occurs in one of them. */
  lemma {:induction false} MarkInFields(fs: seq<Field>)
    ensures HasMark(Join(fs)) <==> exists i :: 0 <= i < |fs| && HasMark(Pair(fs[i]))
  {
    if fs != [] {
      hide HasMark;
      assert Join(fs) == Pair(fs[0]) + [SOH] + Join(fs[1..]);
      MarkAcross(Pair(fs[0]), Join(fs[1..]));
      MarkInFields(fs[1..]);
      if exists i :: 0 <= i < |fs[1..]| && HasMark(Pair(fs[1..][i])) {
        var i :| 0 <= i < |fs[1..]| && HasMark(Pair(fs[1..][i]));
        assert HasMark(Pair(fs[i + 1]));
      }
      if exists i :: 0 <= i < |fs| && HasMark(Pair(fs[i])) {
        var i :| 0 <= i < |fs| && HasMark(Pair(fs[i]));
        if i > 0 {
          assert fs[1..][i - 1] == fs[i];
        }
      }
    } else {
      assert Join(fs) == "";
    }
  }

  lemma {:induction false} JoinEndsWithSoh(fs: seq<Field>)
    requires fs != []
    ensures Join(fs) != "" && Join(fs)[|Join(fs)| - 1] == SOH == 1 as char
  {
    if |fs| > 1 {
      JoinEndsWithSoh(fs[1..]);
    } else {
      assert fs[1..] == [];
    }
  }

  /** A built message is received whole if and only if none of its header and body fields has
      "10=" in its text; a tag such as 110 is enough to break it in two. */
  lemma {:induction false} BuiltIsWholeIff(m: Msg)
    ensures Whole(Build(m)) <==> forall i :: 0 <= i < |m.Head()| ==> !HasMark(Pair(m.Head()[i]))
  {
    var raw, text := Join(m.Head()), m.Trailer().Text();
    JoinEndsWithSoh(m.Head());
    MarkInFields(m.Head());
    ChecksumPlain(raw);
    assert text == "10=" + Checksum(raw) + [SOH];
    hide Checksum, Join;
    TrailerCut(raw, Checksum(raw));
  }

  lemma {:induction false} TrailerCut(raw: string, sum: string)
    requires raw != "" && raw[|raw| - 1] == SOH && |sum| == 3 && SOH !in sum
    ensures var s := raw + ("10=" + sum + [SOH]); Whole(s) <==> !HasMark(raw)
  {
    var s := raw + ("10=" + sum + [SOH]);
    var n := |raw|;
    if HasMark(raw) {
      var j :| 0 <= j < n && Mark(raw, j);
      assert Mark(s, j);
      var e := FindMark(s, 0);
      assert e <= j;
      assert s[n - 1] == SOH && e <= n - 1;
      assert Index(s, SOH, e) <= n - 1;
    } else {
      forall j | 0 <= j < n
        ensures !Mark(s, j)
      {
        assert !Mark(raw, j);
        assert s[n - 1] == SOH;
      }
      assert Mark(s, n);
      assert FindMark(s, 0) == n;
      assert s[n + 3] == sum[0] && s[n + 4] == sum[1] && s[n + 5] == sum[2] && s[n + 6] == SOH;
      assert Index(s, SOH, n) == n + 6;
    }
  }
}
