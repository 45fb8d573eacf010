/**
 An encoder for messages (section 4.1 of RFC 1035), compression pointers included,
 and the proof that decoding an encoded message gives its records back.
 */
module DnsRoundTrip {
  import opened Common
  import opened DnsName
  import opened DnsMessage

  datatype Rr = Rr(name: Wire, kind: u16, cls: u16, ttl: seq<byte>, data: seq<byte>)

  datatype Msg = Msg(id: u16, flags: u16, question: seq<Rr>, answer: seq<Rr>, authority: seq<Rr>, additional: seq<Rr>) {
    function Sections(): seq<seq<Rr>> {
      [question, answer, authority, additional]
    }

    function Flat(): seq<Rr> {
      question + answer + authority + additional
    }
  }

  // ---------------------------------------------------------------- encoding

  function Be(n: u16): (r: seq<byte>)
    ensures |r| == 2
  {
    [n / 256, n % 256]
  }

  /** Label lengths and pointer targets fit their fields. */
  predicate Fits(w: Wire) {
    match w
    case End => true
    case Label(t, rest) => 1 <= |t| < 192 && Fits(rest)
    case Jump(target, _) => target < 0x4000
  }

  /** The bytes of a name at its own place: up to its terminator or first pointer. */
  function Inline(w: Wire): seq<byte>
    requires Fits(w)
  {
    match w
    case End => [0]
    case Label(t, rest) => [|t|] + t + Inline(rest)
    case Jump(target, _) => [192 + target / 256, target % 256]
  }

  predicate FitsRr(rr: Rr) {
    Fits(rr.name) && |rr.ttl| == 4 && |rr.data| < 0x1_0000
  }

  function EncodeRr(rr: Rr, hasData: bool): seq<byte>
    requires FitsRr(rr)
  {
    Inline(rr.name) + Be(rr.kind) + Be(rr.cls) + (if hasData then rr.ttl + Be(|rr.data|) + rr.data else [])
  }

  /** Records number `c` and on; the first `questions` records of a message carry no data. */
  function EncodeRrs(rrs: seq<Rr>, c: nat, questions: nat): seq<byte>
    requires forall i :: 0 <= i < |rrs| ==> FitsRr(rrs[i])
  {
    if rrs == [] then [] else EncodeRr(rrs[0], c >= questions) + EncodeRrs(rrs[1..], c + 1, questions)
  }

  predicate FitsMsg(m: Msg) {
    && (forall t :: 0 <= t < 4 ==> |m.Sections()[t]| < 0x1_0000)
    && (forall i :: 0 <= i < |m.Flat()| ==> FitsRr(m.Flat()[i]))
  }

  function Head(m: Msg): (r: seq<byte>)
    requires FitsMsg(m)
    ensures |r| == HEADER
  {
    var n := m.Sections();
    Be(m.id) + Be(m.flags) + Be(|n[0]|) + Be(|n[1]|) + Be(|n[2]|) + Be(|n[3]|)
  }

  function Encode(m: Msg): (r: seq<byte>)
    requires FitsMsg(m)
    ensures |r| >= HEADER
  {
    Head(m) + EncodeRrs(m.Flat(), 0, |m.question|)
  }

  // ---------------------------------------------------------------- names

  /** What the name's pointer leads to is spelled in the message, where the parser can read it. */
  ghost predicate TailOk(msg: seq<byte>, w: Wire)
    requires |msg| >= HEADER
  {
    match w
    case End => true
    case Label(_, rest) => TailOk(msg, rest)
    case Jump(target, rest) =>
      target < |msg| - HEADER && At(msg, target, |msg| - HEADER, |msg| - HEADER, rest, true)
  }

  ghost predicate Supported(msg: seq<byte>, rrs: seq<Rr>)
    requires |msg| >= HEADER
  {
    forall i :: 0 <= i < |rrs| ==> TailOk(msg, rrs[i].name) && Size(rrs[i].name) < 256
  }

  predicate Plain(w: Wire) {
    match w
    case End => true
    case Label(_, rest) => Plain(rest)
    case Jump(_, _) => false
  }

  /** Names without pointers ask nothing of the message. */
  lemma {:induction false} PlainSupported(msg: seq<byte>, w: Wire)
    requires |msg| >= HEADER && Plain(w)
    ensures TailOk(msg, w)
  {
    if w.Label? {
      PlainSupported(msg, w.rest);
    }
  }

  lemma PointerBytes(target: nat)
    requires target < 0x4000
    ensures target / 256 < 64
    ensures Target(192 + target / 256, target % 256) == target
  {
    assert (192 + target / 256) * 256 + target % 256 == 0xC000 + target;
  }

  lemma Part(msg: seq<byte>, p: nat, whole: seq<byte>, a: nat, b: nat)
    requires p + |whole| <= |msg| && msg[p..p + |whole|] == whole && a <= b <= |whole|
    ensures msg[p + a..p + b] == whole[a..b]
  {
    forall i | a <= i < b
      ensures msg[p + i] == whole[i]
    {
      assert msg[p..p + |whole|][i] == whole[i];
    }
    var l, r := msg[p + a..p + b], whole[a..b];
    assert |l| == |r|;
    forall i | 0 <= i < b - a
      ensures l[i] == r[i]
    {
      assert l[i] == msg[p + (a + i)];
    }
  }

  /** A name written at `p` and ending before `limit` is spelled there. */
  lemma {:induction false} InlineSpells(msg: seq<byte>, p: nat, w: Wire, limit: nat)
    requires |msg| >= HEADER && Fits(w) && TailOk(msg, w)
    requires p + |Inline(w)| <= limit <= |msg| && msg[p..p + |Inline(w)|] == Inline(w)
    ensures At(msg, p, limit, |msg| - HEADER, w, false) && After(w, p) == p + |Inline(w)|
    decreases w
  {
    var bytes := Inline(w);
    match w
    case End =>
      assert msg[p] == msg[p..p + 1][0];
    case Label(t, rest) =>
      LabelBytes(msg, p, t, rest);
      InlineSpells(msg, p + 1 + |t|, rest, limit);
    case Jump(target, rest) =>
      PointerBytes(target);
      assert msg[p] == msg[p..p + 2][0] && msg[p + 1] == msg[p..p + 2][1];
  }

  lemma LabelBytes(msg: seq<byte>, p: nat, t: seq<byte>, rest: Wire)
    requires Fits(Label(t, rest))
    requires p + |Inline(Label(t, rest))| <= |msg|
    requires msg[p..p + |Inline(Label(t, rest))|] == Inline(Label(t, rest))
    ensures var q := p + 1 + |t|;
            && q + |Inline(rest)| == p + |Inline(Label(t, rest))|
            && msg[p] == |t| && msg[p + 1..q] == t && msg[q..q + |Inline(rest)|] == Inline(rest)
  {
    var bytes, n := Inline(Label(t, rest)), 1 + |t|;
    assert bytes[0..1] == [|t|] && bytes[1..n] == t && bytes[n..|bytes|] == Inline(rest);
    hide Inline;
    Part(msg, p, bytes, 0, 1);
    Part(msg, p, bytes, 1, n);
    Part(msg, p, bytes, n, |bytes|);
    assert msg[p] == msg[p..p + 1][0];
  }

  // ---------------------------------------------------------------- records

  predicate Holds(msg: seq<byte>, s: Slice, data: seq<byte>) {
    s.len == |data| && s.at + s.len <= |msg| && msg[s.at..s.at + s.len] == data
  }

  /** A stored record stands for an encoded one: printed name, type and data bytes. */
  ghost predicate Matches(msg: seq<byte>, rec: Record, rr: Rr, hasData: bool)
    requires |msg| >= HEADER
  {
    var name := Parse(msg, rec.nameAt, |msg|, |msg| - HEADER);
    && rec.kind == Some(rr.kind)
    && name.Some? && name.value.text == Text(rr.name)
    && if hasData then rec.data.Some? && Holds(msg, rec.data.value, rr.data) else rec.data == None
  }

  lemma Be16Of(msg: seq<byte>, p: nat, n: u16)
    requires p + 2 <= |msg| && msg[p..p + 2] == Be(n)
    ensures Be16(msg, p) == n
  {
    assert msg[p] == msg[p..p + 2][0] && msg[p + 1] == msg[p..p + 2][1];
  }

  lemma NameRead(msg: seq<byte>, p: nat, w: Wire)
    requires |msg| >= HEADER && Fits(w) && TailOk(msg, w) && Size(w) < 256
    requires p + |Inline(w)| <= |msg| && msg[p..p + |Inline(w)|] == Inline(w)
    ensures Parse(msg, p, |msg|, |msg| - HEADER) == Some(Name(p + |Inline(w)|, Text(w)))
  {
    hide Inline, TailOk, At, Parse;
    InlineSpells(msg, p, w, |msg|);
    Decompresses(msg, p, |msg|, |msg| - HEADER, w);
  }

  lemma InlineSome(w: Wire)
    requires Fits(w)
    ensures |Inline(w)| >= 1
  {
  }

  /** The fields of an encoded record, where they are. */
  lemma Fields(rr: Rr, hasData: bool)
    requires FitsRr(rr)
    ensures var bytes, n := EncodeRr(rr, hasData), |Inline(rr.name)|;
            && |bytes| == n + 4 + (if hasData then 6 + |rr.data| else 0)
            && bytes[0..n] == Inline(rr.name) && bytes[n..n + 2] == Be(rr.kind)
            && (hasData ==> bytes[n + 8..n + 10] == Be(|rr.data|) && bytes[n + 10..n + 10 + |rr.data|] == rr.data)
  {
  }

  /** The record the decoder stores for `rr` encoded at `p`. */
  function StoredAs(rr: Rr, p: nat, hasData: bool): Record
    requires FitsRr(rr)
  {
    Record(p, Some(rr.kind), if hasData then Some(Slice(p + |Inline(rr.name)| + 10, |rr.data|)) else None)
  }

  lemma RecordRead(msg: seq<byte>, p: nat, rr: Rr, hasData: bool)
    requires |msg| >= HEADER && FitsRr(rr) && TailOk(msg, rr.name) && Size(rr.name) < 256
    requires p + |EncodeRr(rr, hasData)| <= |msg|
    requires msg[p..p + |EncodeRr(rr, hasData)|] == EncodeRr(rr, hasData)
    ensures var r := ReadRecord(msg, p, hasData);
            r == Go(StoredAs(rr, p, hasData), p + |EncodeRr(rr, hasData)|) && Matches(msg, r.rec, rr, hasData)
  {
    hide Parse, Inline, Be, Be16, TailOk, Text, Size, EncodeRr, ReadRecord;
    var bytes, n := EncodeRr(rr, hasData), |Inline(rr.name)|;
    Fields(rr, hasData);
    Part(msg, p, bytes, 0, n);
    NameRead(msg, p, rr.name);
    InlineSome(rr.name);
    Part(msg, p, bytes, n, n + 2);
    Be16Of(msg, p + n, rr.kind);
    if hasData {
      Part(msg, p, bytes, n + 8, n + 10);
      Be16Of(msg, p + n + 8, |rr.data|);
      Part(msg, p, bytes, n + 10, n + 10 + |rr.data|);
    }
    WholeRecord(msg, p, hasData, p + n, Text(rr.name), rr.kind, |rr.data|);
  }

  /** A record nothing of which is cut off is read to its end. */
  lemma WholeRecord(msg: seq<byte>, p: nat, hasData: bool, q: nat, text: seq<byte>, kind: nat, len: nat)
    requires |msg| >= HEADER && Parse(msg, p, |msg|, |msg| - HEADER) == Some(Name(q, text))
    requires p < q && q + 4 <= |msg| && Be16(msg, q) == kind
    requires hasData ==> q + 10 + len <= |msg| && Be16(msg, q + 8) == len
    ensures ReadRecord(msg, p, hasData)
            == Go(Record(p, Some(kind), if hasData then Some(Slice(q + 10, len)) else None),
                  if hasData then q + 10 + len else q + 4)
  {
    hide Parse, Be16;
  }

  lemma HeadAndRest(msg: seq<byte>, p: nat, rrs: seq<Rr>, c: nat, questions: nat)
    requires rrs != [] && forall i :: 0 <= i < |rrs| ==> FitsRr(rrs[i])
    requires p <= |msg| && msg[p..] == EncodeRrs(rrs, c, questions)
    ensures var first := EncodeRr(rrs[0], c >= questions); var q := p + |first|;
            q <= |msg| && msg[p..q] == first && msg[q..] == EncodeRrs(rrs[1..], c + 1, questions)
  {
    hide EncodeRr;
    var first := EncodeRr(rrs[0], c >= questions);
    var q := p + |first|;
    assert msg[p..q] == msg[p..][..|first|];
    assert msg[q..] == msg[p..][|first|..];
  }

  lemma {:induction false} RecordsRead(msg: seq<byte>, p: nat, rrs: seq<Rr>, c: nat, questions: nat)
    requires |msg| >= HEADER && Supported(msg, rrs) && forall i :: 0 <= i < |rrs| ==> FitsRr(rrs[i])
    requires p <= |msg| && msg[p..] == EncodeRrs(rrs, c, questions)
    ensures var r := ReadRecords(msg, p, c, questions, c + |rrs|);
            && r.ok && |r.recs| == |rrs|
            && forall i :: 0 <= i < |rrs| ==> Matches(msg, r.recs[i], rrs[i], c + i >= questions)
    decreases |rrs|
  {
    hide ReadRecord, ReadRecords, Matches, EncodeRr, EncodeRrs, TailOk;
    ReadOn(msg, p, c, questions, c + |rrs|);
    if rrs != [] {
      var q := p + |EncodeRr(rrs[0], c >= questions)|;
      HeadAndRest(msg, p, rrs, c, questions);
      RecordRead(msg, p, rrs[0], c >= questions);
      RecordsRead(msg, q, rrs[1..], c + 1, questions);
    }
  }

  // ---------------------------------------------------------------- messages

  lemma SixFields(a: seq<byte>, b: seq<byte>, c: seq<byte>, d: seq<byte>, e: seq<byte>, f: seq<byte>)
    requires |a| == |b| == |c| == |d| == |e| == |f| == 2
    ensures var h := a + b + c + d + e + f;
            |h| == 12 && h[4..6] == c && h[6..8] == d && h[8..10] == e && h[10..12] == f
  {
  }

  lemma HeadCounts(m: Msg)
    requires FitsMsg(m)
    ensures Counts(Encode(m)) == [|m.question|, |m.answer|, |m.authority|, |m.additional|]
  {
    hide EncodeRrs, FitsRr, Be, Be16;
    var msg, h := Encode(m), Head(m);
    assert msg[0..HEADER] == h;
    SixFields(Be(m.id), Be(m.flags), Be(|m.question|), Be(|m.answer|), Be(|m.authority|), Be(|m.additional|));
    Part(msg, 0, h, 4, 6);
    Part(msg, 0, h, 6, 8);
    Part(msg, 0, h, 8, 10);
    Part(msg, 0, h, 10, 12);
    Be16Of(msg, 4, |m.question|);
    Be16Of(msg, 6, |m.answer|);
    Be16Of(msg, 8, |m.authority|);
    Be16Of(msg, 10, |m.additional|);
  }

  /** Section `t` of the flat list starts where the earlier sections end. */
  lemma FlatSection(m: Msg, t: nat, i: nat)
    requires t < 4 && i < |m.Sections()[t]|
    ensures var counts := [|m.question|, |m.answer|, |m.authority|, |m.additional|];
            && Before(counts, t) + i < |m.Flat()| && Before(counts, t + 1) <= |m.Flat()|
            && m.Flat()[Before(counts, t) + i] == m.Sections()[t][i]
            && (Before(counts, t) + i >= counts[0] <==> t > 0)
  {
    var counts := [|m.question|, |m.answer|, |m.authority|, |m.additional|];
    assert Before(counts, 1) == |m.question|;
    assert Before(counts, 2) == |m.question| + |m.answer|;
    assert Before(counts, 3) == |m.question| + |m.answer| + |m.authority|;
    FourCounts(counts);
  }

  /** The decoder's records are those of the message, per section and in order. */
  ghost predicate Rebuilt(m: Msg, msg: seq<byte>, spec: Outcome)
    requires |msg| >= HEADER
  {
    && spec.ok
    && forall t :: 0 <= t < 4 ==> SectionRebuilt(msg, Section(spec.recs, Counts(msg), t), m.Sections()[t], t > 0)
  }

  ghost predicate SectionRebuilt(msg: seq<byte>, recs: seq<Record>, rrs: seq<Rr>, hasData: bool)
    requires |msg| >= HEADER
  {
    |recs| == |rrs| && forall i :: 0 <= i < |rrs| ==> Matches(msg, recs[i], rrs[i], hasData)
  }

  /**
   Round trip: decoding an encoded message answers true and rebuilds the four record
   lists, per section and in order, with name, type and data of every record.
   */
  lemma {:induction false} RoundTrip(m: Msg)
    requires FitsMsg(m) && Supported(Encode(m), m.Flat())
    ensures Rebuilt(m, Encode(m), DecodeSpec(Encode(m)))
  {
    hide ReadRecords, Matches, EncodeRrs, Counts, Head, TailOk, FitsRr;
    var msg := Encode(m);
    HeadCounts(m);
    FourCounts(Counts(msg));
    assert msg[HEADER..] == EncodeRrs(m.Flat(), 0, |m.question|);
    RecordsRead(msg, HEADER, m.Flat(), 0, |m.question|);
    forall t | 0 <= t < 4
      ensures SectionRebuilt(msg, Section(DecodeSpec(msg).recs, Counts(msg), t), m.Sections()[t], t > 0)
    {
      SectionOfFlat(m, DecodeSpec(msg).recs, t);
    }
  }

  lemma SectionOfFlat(m: Msg, recs: seq<Record>, t: nat)
    requires FitsMsg(m) && t < 4 && |recs| == |m.Flat()|
    requires forall i :: 0 <= i < |recs| ==> Matches(Encode(m), recs[i], m.Flat()[i], i >= |m.question|)
    ensures var counts := [|m.question|, |m.answer|, |m.authority|, |m.additional|];
            SectionRebuilt(Encode(m), Section(recs, counts, t), m.Sections()[t], t > 0)
  {
    hide Matches, Encode, FitsRr;
    var counts := [|m.question|, |m.answer|, |m.authority|, |m.additional|];
    FourCounts(counts);
    BeforeOrdered(counts, t + 1, 4);
    BeforeNext(counts, t);
    hide Before;
    assert Section(recs, counts, t) == recs[Before(counts, t)..Before(counts, t + 1)];
    forall i | 0 <= i < |m.Sections()[t]|
      ensures Matches(Encode(m), Section(recs, counts, t)[i], m.Sections()[t][i], t > 0)
    {
      FlatSection(m, t, i);
      assert Section(recs, counts, t)[i] == recs[Before(counts, t) + i];
    }
  }
}
