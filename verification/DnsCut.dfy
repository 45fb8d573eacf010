/**
 Messages of which only the first bytes are there.  Records before the cut are stored whole; of
 the record that is cut its name is stored, and its type if that is all there, but no data.
 */
module DnsCut {
  import opened Common
  import opened DnsName
  import opened DnsMessage
  import opened DnsRoundTrip

  // ---------------------------------------------------------------- a name cut short

  /** A name of which not all bytes are there cannot be read. */
  lemma {:induction false} CutName(msg: seq<byte>, c: Cursor, w: Wire, total: nat, len: nat, text: seq<byte>)
    requires c.limit == |msg| && total <= |msg| && c.p <= |msg| && Fits(w)
    requires |msg| < c.p + |Inline(w)| && msg[c.p..] == Inline(w)[..|msg| - c.p]
    ensures ParseFrom(msg, c, total, len, text).None?
    decreases w
  {
    hide ParseFrom;
    StepLast(msg, c, total, len, text);
    if c.p < |msg| {
      assert msg[c.p] == msg[c.p..][0] == Inline(w)[0];
      if w.Label? && len < 256 && c.p + msg[c.p] + 1 < |msg| {
        var n := 1 + |w.text|;
        assert Inline(w)[n..] == Inline(w.rest);
        assert msg[c.p + n..] == msg[c.p..][n..] == Inline(w)[..|msg| - c.p][n..];
        StepLabel(msg, c, total, len, text, c);
        CutName(msg, c.(p := c.p + n), w.rest, total, len + msg[c.p], text + msg[c.p + 1..c.p + 1 + msg[c.p]] + [DOT]);
      }
    }
  }

  // ---------------------------------------------------------------- a record cut short

  /** What is stored of a record of which `n` bytes are there, and how the loop ends. */
  function CutRound(rr: Rr, p: nat, n: nat): Round
    requires FitsRr(rr)
  {
    var size := |Inline(rr.name)|;
    if n == 0 then Stop(false, [])
    else if n < size + 4 then Stop(n != size, [Record(p, None, None)])
    else Stop(true, [Record(p, Some(rr.kind), None)])
  }

  /** The record stands at `p`, but the message ends before it does. */
  ghost predicate CutAt(msg: seq<byte>, p: nat, rr: Rr, hasData: bool)
    requires FitsRr(rr)
  {
    var bytes := EncodeRr(rr, hasData);
    p <= |msg| < p + |bytes| && msg[p..] == bytes[..|msg| - p]
  }

  lemma CutPart(msg: seq<byte>, p: nat, bytes: seq<byte>, i: nat, j: nat)
    requires p <= |msg| <= p + |bytes| && msg[p..] == bytes[..|msg| - p]
    requires i <= j && p + j <= |msg|
    ensures msg[p + i..p + j] == bytes[i..j]
  {
    assert msg[p + i..p + j] == msg[p..][i..j];
    assert bytes[..|msg| - p][i..j] == bytes[i..j];
  }

  lemma CutInName(msg: seq<byte>, p: nat, rr: Rr, hasData: bool)
    requires |msg| >= HEADER && FitsRr(rr) && CutAt(msg, p, rr, hasData) && p < |msg| < p + |Inline(rr.name)|
    ensures Parse(msg, p, |msg|, |msg| - HEADER).None?
  {
    hide EncodeRr, Inline, ParseFrom;
    Fields(rr, hasData);
    var bytes, w := EncodeRr(rr, hasData), Inline(rr.name);
    assert bytes[..|msg| - p] == bytes[0..|w|][..|msg| - p];
    CutName(msg, Cursor(p, |msg|, None), rr.name, |msg| - HEADER, 0, []);
  }

  lemma CutBehindName(msg: seq<byte>, p: nat, rr: Rr, hasData: bool)
    requires |msg| >= HEADER && FitsRr(rr) && TailOk(msg, rr.name) && Size(rr.name) < 256
    requires CutAt(msg, p, rr, hasData) && p + |Inline(rr.name)| <= |msg|
    ensures var n := |Inline(rr.name)|;
            && n >= 1 && Parse(msg, p, |msg|, |msg| - HEADER) == Some(Name(p + n, Text(rr.name)))
            && (p + n + 4 <= |msg| ==> Be16(msg, p + n) == rr.kind)
            && (hasData && p + n + 10 <= |msg| ==>
                  Be16(msg, p + n + 8) == |rr.data| && |msg| - (p + n + 10) < |rr.data|)
            && (p + n + 4 <= |msg| ==> hasData)
  {
    hide EncodeRr, Inline, ParseFrom, TailOk, Be, Be16;
    var bytes, n := EncodeRr(rr, hasData), |Inline(rr.name)|;
    Fields(rr, hasData);
    InlineSome(rr.name);
    CutPart(msg, p, bytes, 0, n);
    NameRead(msg, p, rr.name);
    if p + n + 4 <= |msg| {
      CutPart(msg, p, bytes, n, n + 2);
      Be16Of(msg, p + n, rr.kind);
    }
    if hasData && p + n + 10 <= |msg| {
      CutPart(msg, p, bytes, n + 8, n + 10);
      Be16Of(msg, p + n + 8, |rr.data|);
    }
  }

  lemma CutRecord(msg: seq<byte>, p: nat, rr: Rr, hasData: bool)
    requires |msg| >= HEADER && FitsRr(rr) && TailOk(msg, rr.name) && Size(rr.name) < 256
    requires CutAt(msg, p, rr, hasData)
    ensures ReadRecord(msg, p, hasData) == CutRound(rr, p, |msg| - p)
  {
    hide EncodeRr, Inline, Parse, TailOk, Be16, CutAt;
    InlineSome(rr.name);
    CutInside(msg, p, rr, hasData);
    if p < |msg| < p + |Inline(rr.name)| {
      CutInName(msg, p, rr, hasData);
    } else if p + |Inline(rr.name)| <= |msg| {
      CutBehindName(msg, p, rr, hasData);
    }
  }

  lemma CutInside(msg: seq<byte>, p: nat, rr: Rr, hasData: bool)
    requires FitsRr(rr) && CutAt(msg, p, rr, hasData)
    ensures p <= |msg|
  {
  }

  // ---------------------------------------------------------------- a message cut short

  /** What is left of records that start at `p` if `n` bytes of them are there. */
  function Remains(rrs: seq<Rr>, p: nat, c: nat, questions: nat, n: nat): Outcome
    requires forall i :: 0 <= i < |rrs| ==> FitsRr(rrs[i])
  {
    if rrs == [] then Outcome(true, [])
    else
      var size := |EncodeRr(rrs[0], c >= questions)|;
      if n < size then
        var round := CutRound(rrs[0], p, n);
        Outcome(round.ok, round.last)
      else
        var rest := Remains(rrs[1..], p + size, c + 1, questions, n - size);
        Outcome(rest.ok, [StoredAs(rrs[0], p, c >= questions)] + rest.recs)
  }

  /** The bytes of the first record in what is left of some records. */
  lemma CutHead(msg: seq<byte>, p: nat, rrs: seq<Rr>, c: nat, questions: nat)
    requires rrs != [] && forall i :: 0 <= i < |rrs| ==> FitsRr(rrs[i])
    requires var all := EncodeRrs(rrs, c, questions);
             p <= |msg| <= p + |all| && msg[p..] == all[..|msg| - p]
    ensures var first, rest := EncodeRr(rrs[0], c >= questions), EncodeRrs(rrs[1..], c + 1, questions);
            var q := p + |first|;
            if |msg| < q then CutAt(msg, p, rrs[0], c >= questions)
            else msg[p..q] == first && |msg| <= q + |rest| && msg[q..] == rest[..|msg| - q]
  {
    hide EncodeRr;
    var first, rest := EncodeRr(rrs[0], c >= questions), EncodeRrs(rrs[1..], c + 1, questions);
    var q := p + |first|;
    if |msg| < q {
      assert (first + rest)[..|msg| - p] == first[..|msg| - p];
    } else {
      CutPart(msg, p, first + rest, 0, |first|);
      assert (first + rest)[0..|first|] == first;
      assert msg[q..] == msg[p..][|first|..];
    }
  }

  lemma {:induction false} CutRecords(msg: seq<byte>, p: nat, rrs: seq<Rr>, c: nat, questions: nat)
    requires |msg| >= HEADER && Supported(msg, rrs) && forall i :: 0 <= i < |rrs| ==> FitsRr(rrs[i])
    requires var all := EncodeRrs(rrs, c, questions);
             p <= |msg| <= p + |all| && msg[p..] == all[..|msg| - p]
    ensures ReadRecords(msg, p, c, questions, c + |rrs|) == Remains(rrs, p, c, questions, |msg| - p)
    decreases |rrs|
  {
    hide ReadRecord, ReadRecords, Matches, EncodeRr, EncodeRrs, TailOk, CutRound, CutAt, StoredAs;
    ReadOn(msg, p, c, questions, c + |rrs|);
    if rrs != [] {
      var q := p + |EncodeRr(rrs[0], c >= questions)|;
      CutHead(msg, p, rrs, c, questions);
      if |msg| < q {
        CutRecord(msg, p, rrs[0], c >= questions);
        CutStops(rrs[0], p, |msg| - p);
      } else {
        RecordRead(msg, p, rrs[0], c >= questions);
        CutRecords(msg, q, rrs[1..], c + 1, questions);
      }
    }
  }

  lemma CutStops(rr: Rr, p: nat, n: nat)
    requires FitsRr(rr)
    ensures CutRound(rr, p, n).Stop?
  {
  }

  /**
   An encoded message cut after `n` bytes, header included: exactly what is left of its records is
   stored, and the answer is false exactly if the cut is where a name would start or has just ended.
   */
  lemma {:induction false} CutMessage(m: Msg, n: nat)
    requires FitsMsg(m) && HEADER <= n <= |Encode(m)| && Supported(Encode(m)[..n], m.Flat())
    ensures DecodeSpec(Encode(m)[..n]) == Remains(m.Flat(), HEADER, 0, |m.question|, n - HEADER)
  {
    hide ReadRecords, EncodeRrs, Head, TailOk, FitsRr, Remains, Be16;
    var whole := Encode(m);
    var msg := whole[..n];
    HeadCounts(m);
    SameCounts(whole, n);
    FourCounts(Counts(msg));
    assert whole[HEADER..] == EncodeRrs(m.Flat(), 0, |m.question|);
    assert msg[HEADER..] == whole[HEADER..][..n - HEADER];
    CutRecords(msg, HEADER, m.Flat(), 0, |m.question|);
  }

  lemma SameCounts(msg: seq<byte>, n: nat)
    requires HEADER <= n <= |msg|
    ensures Counts(msg[..n]) == Counts(msg)
  {
  }
}
