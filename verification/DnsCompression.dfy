/**
 Compression (section 4.1.4 of RFC 1035) as a condition on messages: a name may end in a pointer
 to the place where a name of an earlier record, or a suffix of one, is written.  Such messages
 round-trip, with nothing assumed about their bytes.
 */
module DnsCompression {
  import opened Common
  import opened DnsName
  import opened DnsMessage
  import opened DnsRoundTrip

  // ---------------------------------------------------------------- suffixes

  /** Labels a name writes at its own place. */
  function Labels(w: Wire): nat {
    if w.Label? then 1 + Labels(w.rest) else 0
  }

  /** The name without its first `d` labels. */
  function Drop(w: Wire, d: nat): Wire
    requires d <= Labels(w)
  {
    if d == 0 then w else Drop(w.rest, d - 1)
  }

  /** The bytes of those labels. */
  function Skipped(w: Wire, d: nat): nat
    requires d <= Labels(w)
  {
    if d == 0 then 0 else 1 + |w.text| + Skipped(w.rest, d - 1)
  }

  /** The pointer a name ends in, and the name behind it. */
  function Pointer(w: Wire): Option<(nat, Wire)> {
    match w
    case End => None
    case Label(_, rest) => Pointer(rest)
    case Jump(target, rest) => Some((target, rest))
  }

  lemma {:induction false} DropWritten(w: Wire, d: nat)
    requires Fits(w) && d <= Labels(w)
    ensures Fits(Drop(w, d))
    ensures Skipped(w, d) + |Inline(Drop(w, d))| == |Inline(w)|
    ensures Inline(w)[Skipped(w, d)..] == Inline(Drop(w, d))
  {
    if d > 0 {
      DropWritten(w.rest, d - 1);
      var n := 1 + |w.text|;
      assert Inline(w)[n..] == Inline(w.rest);
      assert Inline(w)[n..][Skipped(w.rest, d - 1)..] == Inline(w)[Skipped(w, d)..];
    }
  }

  lemma {:induction false} DropTail(msg: seq<byte>, w: Wire, d: nat)
    requires |msg| >= HEADER && TailOk(msg, w) && d <= Labels(w)
    ensures TailOk(msg, Drop(w, d))
  {
    if d > 0 {
      DropTail(msg, w.rest, d - 1);
    }
  }

  /** A name's tail is fit exactly when its pointer, if any, leads to a name the parser can read. */
  lemma {:induction false} TailIsPointer(msg: seq<byte>, w: Wire)
    requires |msg| >= HEADER
    ensures TailOk(msg, w) <==>
              var q := Pointer(w);
              q.Some? ==>
                && q.value.0 < |msg| - HEADER
                && At(msg, q.value.0, |msg| - HEADER, |msg| - HEADER, q.value.1, true)
  {
    if w.Label? {
      TailIsPointer(msg, w.rest);
    }
  }

  /** A name written in reach of a jump can be jumped to, unless it starts with a pointer itself. */
  lemma JumpToWritten(msg: seq<byte>, p: nat, w: Wire)
    requires |msg| >= HEADER && Fits(w) && TailOk(msg, w) && !w.Jump?
    requires p + |Inline(w)| <= |msg| - HEADER && msg[p..p + |Inline(w)|] == Inline(w)
    ensures p < |msg| - HEADER && At(msg, p, |msg| - HEADER, |msg| - HEADER, w, true)
  {
    InlineSpells(msg, p, w, |msg| - HEADER);
  }

  /** So can any suffix of it. */
  lemma JumpToSuffix(msg: seq<byte>, p: nat, w: Wire, d: nat)
    requires |msg| >= HEADER && Fits(w) && TailOk(msg, w) && d <= Labels(w) && !Drop(w, d).Jump?
    requires p + |Inline(w)| <= |msg| - HEADER && msg[p..p + |Inline(w)|] == Inline(w)
    ensures var q := p + Skipped(w, d);
            q < |msg| - HEADER && At(msg, q, |msg| - HEADER, |msg| - HEADER, Drop(w, d), true)
  {
    hide Inline, At, TailOk, Fits, Skipped, Drop, Labels;
    DropTail(msg, w, d);
    DropWritten(w, d);
    Part(msg, p, Inline(w), Skipped(w, d), |Inline(w)|);
    JumpToWritten(msg, p + Skipped(w, d), Drop(w, d));
  }

  // ---------------------------------------------------------------- where records are written

  lemma {:induction false} EncodeApart(some: seq<Rr>, more: seq<Rr>, c: nat, questions: nat)
    requires forall i :: 0 <= i < |some + more| ==> FitsRr((some + more)[i])
    ensures forall i :: 0 <= i < |some| ==> FitsRr(some[i])
    ensures forall i :: 0 <= i < |more| ==> FitsRr(more[i])
    ensures EncodeRrs(some + more, c, questions)
            == EncodeRrs(some, c, questions) + EncodeRrs(more, c + |some|, questions)
    decreases |some|
  {
    hide EncodeRr, FitsRr;
    assert forall i :: 0 <= i < |some| ==> some[i] == (some + more)[i];
    assert forall i :: 0 <= i < |more| ==> more[i] == (some + more)[|some| + i];
    if some == [] {
      assert some + more == more;
    } else {
      assert (some + more)[1..] == some[1..] + more;
      EncodeApart(some[1..], more, c + 1, questions);
    }
  }

  /** The offset of record `i` in the encoded message. */
  function RecordAt(m: Msg, i: nat): nat
    requires FitsMsg(m) && i <= |m.Flat()|
  {
    HEADER + |EncodeRrs(m.Flat()[..i], 0, |m.question|)|
  }

  lemma RecordWritten(m: Msg, i: nat)
    requires FitsMsg(m) && i < |m.Flat()|
    ensures var msg, p, rr := Encode(m), RecordAt(m, i), m.Flat()[i];
            p + |Inline(rr.name)| <= |msg| && msg[p..p + |Inline(rr.name)|] == Inline(rr.name)
  {
    hide EncodeRr, Inline, Head;
    var all, q := m.Flat(), |m.question|;
    var before, after := all[..i], all[i..];
    assert before + after == all;
    EncodeApart(before, after, 0, q);
    var head := Head(m) + EncodeRrs(before, 0, q);
    assert after[0] == all[i];
    var bytes := EncodeRr(all[i], i >= q);
    var tail := EncodeRrs(after[1..], i + 1, q);
    assert Encode(m) == head + bytes + tail;
    Fields(all[i], i >= q);
    InlineFirst(head, bytes, tail, |Inline(all[i].name)|);
  }

  lemma InlineFirst(head: seq<byte>, bytes: seq<byte>, tail: seq<byte>, n: nat)
    requires n <= |bytes|
    ensures (head + bytes + tail)[|head|..|head| + n] == bytes[0..n]
  {
  }

  // ---------------------------------------------------------------- compressed messages

  /**
   Record `i` points to the suffix behind `d` labels of the name of record `j`, an earlier one whose
   name ends in reach of a jump.
   */
  ghost predicate PointsTo(m: Msg, i: nat, j: nat, d: nat)
    requires FitsMsg(m) && i < |m.Flat()|
  {
    && j < i && d <= Labels(m.Flat()[j].name)
    && var name := m.Flat()[j].name;
       && Pointer(m.Flat()[i].name) == Some((RecordAt(m, j) + Skipped(name, d), Drop(name, d)))
       && !Drop(name, d).Jump?
       && RecordAt(m, j) + |Inline(name)| <= |Encode(m)| - HEADER
  }

  /** Every name is short enough, and ends in a zero byte or in a pointer to an earlier name. */
  ghost predicate Compressed(m: Msg)
    requires FitsMsg(m)
  {
    forall i :: 0 <= i < |m.Flat()| ==>
      && Size(m.Flat()[i].name) < 256
      && (Pointer(m.Flat()[i].name).Some? ==> exists j: nat, d: nat :: PointsTo(m, i, j, d))
  }

  lemma PointedAt(m: Msg, i: nat, j: nat, d: nat)
    requires FitsMsg(m) && i < |m.Flat()| && PointsTo(m, i, j, d)
    requires TailOk(Encode(m), m.Flat()[j].name)
    ensures TailOk(Encode(m), m.Flat()[i].name)
  {
    var msg, name, p := Encode(m), m.Flat()[j].name, RecordAt(m, j);
    assert FitsRr(m.Flat()[j]);
    RecordWritten(m, j);
    assert !Drop(name, d).Jump? && p + |Inline(name)| <= |msg| - HEADER;
    assert Pointer(m.Flat()[i].name) == Some((p + Skipped(name, d), Drop(name, d)));
    hide Encode, Inline, At, EncodeRrs, RecordAt, TailOk, FitsMsg, FitsRr, Fits;
    hide PointsTo, Skipped, Drop, Labels, Pointer;
    TailIsPointer(msg, m.Flat()[i].name);
    JumpToSuffix(msg, p, name, d);
  }

  lemma {:induction false} TailInPlace(m: Msg, i: nat)
    requires FitsMsg(m) && Compressed(m) && i < |m.Flat()|
    ensures TailOk(Encode(m), m.Flat()[i].name)
    decreases i
  {
    hide Encode, PointsTo, TailOk, FitsMsg;
    TailIsPointer(Encode(m), m.Flat()[i].name);
    if Pointer(m.Flat()[i].name).Some? {
      var j: nat, d: nat :| PointsTo(m, i, j, d);
      PointsEarlier(m, i, j, d);
      TailInPlace(m, j);
      PointedAt(m, i, j, d);
    }
  }

  lemma PointsEarlier(m: Msg, i: nat, j: nat, d: nat)
    requires FitsMsg(m) && i < |m.Flat()| && PointsTo(m, i, j, d)
    ensures j < i
  {
  }

  /** Compressed messages round-trip. */
  lemma {:induction false} CompressedRoundTrip(m: Msg)
    requires FitsMsg(m) && Compressed(m)
    ensures Rebuilt(m, Encode(m), DecodeSpec(Encode(m)))
  {
    hide Encode, TailOk, Rebuilt, DecodeSpec;
    forall i | 0 <= i < |m.Flat()|
      ensures TailOk(Encode(m), m.Flat()[i].name)
    {
      TailInPlace(m, i);
    }
    RoundTrip(m);
  }

  // ---------------------------------------------------------------- an example

  const SHORT_NAME := Label([97], End)

  /** One question and one answer, whose name is a pointer to the question's at offset 12. */
  const POINTING := Msg(7, 0, [Rr(SHORT_NAME, 1, 1, [0, 0, 0, 0], [])],
                        [Rr(Jump(12, SHORT_NAME), 1, 1, [0, 0, 0, 60], [10, 0, 0, 1])], [], [])

  lemma {:induction false} ExampleCompressed()
    ensures FitsMsg(POINTING) && Compressed(POINTING)
    ensures Pointer(POINTING.answer[0].name).Some?
  {
    var all := POINTING.Flat();
    assert all == [POINTING.question[0], POINTING.answer[0]];
    assert FitsRr(all[0]) && FitsRr(all[1]);
    Fields(all[0], false);
    Fields(all[1], true);
    assert Inline(SHORT_NAME) == [1, 97, 0];
    assert all[..0] == [] && all[1..] == [all[1]] && all[1..][1..] == [];
    assert |EncodeRr(all[0], false)| == 7 && |EncodeRr(all[1], true)| == 16;
    assert EncodeRrs([all[1]], 1, 1) == EncodeRr(all[1], true) + EncodeRrs([], 2, 1) by {
      assert [all[1]][1..] == [];
    }
    assert |EncodeRrs(all, 0, 1)| == 7 + 16;
    assert PointsTo(POINTING, 1, 0, 0);
  }
}
