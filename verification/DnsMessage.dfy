/**
 DNS and mDNS messages: NameService::ns_decode of src/modules/utils.cc, the loop over
 the question, answer, authority and additional sections (section 4.1 of RFC 1035).
 */
module DnsMessage {
  import opened Common
  import opened DnsName

  const HEADER: nat := 12

  datatype Slice = Slice(at: nat, len: nat)

  /** A record as stored: where its name starts, its type and its data once they were read. */
  datatype Record = Record(nameAt: nat, kind: Option<nat>, data: Option<Slice>)

  /** One round of the loop: it stops with an answer, or goes on from an offset. */
  datatype Round = Stop(ok: bool, last: seq<Record>) | Go(rec: Record, next: nat)

  /** The record at `p`; records past the questions carry data. */
  function ReadRecord(msg: seq<byte>, p: nat, hasData: bool): (r: Round)
    requires HEADER <= |msg|
    ensures r.Go? ==> p + 5 <= r.next <= |msg|
    ensures r.Stop? ==> |r.last| <= 1
  {
    var ep := |msg|;
    if ep <= p then Stop(false, [])
    else
      var rec := Record(p, None, None);
      match Parse(msg, p, ep, ep - HEADER)
      case None => Stop(true, [rec])
      case Some(name) =>
        ParseAdvances(msg, p, ep, ep - HEADER);
        var q := name.next;
        if ep <= q then Stop(false, [rec])
        else if ep - q < 4 then Stop(true, [rec])
        else
          var typed := rec.(kind := Some(Be16(msg, q)));
          if !hasData then Go(typed, q + 4)
          else if ep - (q + 4) < 6 then Stop(true, [typed])
          else
            var len := Be16(msg, q + 8);
            if ep - (q + 10) < len then Stop(true, [typed])
            else Go(typed.(data := Some(Slice(q + 10, len))), q + 10 + len)
  }

  datatype Outcome = Outcome(ok: bool, recs: seq<Record>)

  /** All records from the `c`-th on, `total` being announced and the first `questions` having no data. */
  function ReadRecords(msg: seq<byte>, p: nat, c: nat, questions: nat, total: nat): Outcome
    requires HEADER <= |msg|
    decreases total - c
  {
    if c >= total then Outcome(true, [])
    else
      match ReadRecord(msg, p, c >= questions)
      case Stop(ok, last) => Outcome(ok, last)
      case Go(rec, next) =>
        var rest := ReadRecords(msg, next, c + 1, questions, total);
        rest.(recs := [rec] + rest.recs)
  }

  /** The four counts of the header. */
  function Counts(msg: seq<byte>): (r: seq<nat>)
    requires HEADER <= |msg|
    ensures |r| == 4
  {
    [Be16(msg, 4), Be16(msg, 6), Be16(msg, 8), Be16(msg, 10)]
  }

  /** Records announced before section `t`. */
  function Before(counts: seq<nat>, t: nat): nat
    requires t <= |counts|
  {
    if t == 0 then 0 else Before(counts, t - 1) + counts[t - 1]
  }

  function Min(a: nat, b: nat): nat {
    if a < b then a else b
  }

  /** The records of section `t`: those whose number falls in its range. */
  function Section(recs: seq<Record>, counts: seq<nat>, t: nat): seq<Record>
    requires t < |counts|
  {
    recs[Min(Before(counts, t), |recs|)..Min(Before(counts, t + 1), |recs|)]
  }

  function DecodeSpec(msg: seq<byte>): Outcome
    requires HEADER <= |msg|
  {
    var counts := Counts(msg);
    ReadRecords(msg, HEADER, 0, counts[0], Before(counts, 4))
  }

  lemma {:induction false} BeforeOrdered(counts: seq<nat>, t: nat, u: nat)
    requires t <= u <= |counts|
    ensures Before(counts, t) <= Before(counts, u)
    decreases u
  {
    if t < u {
      BeforeOrdered(counts, t, u - 1);
    }
  }

  /** Adding record number |recs| extends its own section and no other. */
  lemma SectionSnoc(recs: seq<Record>, counts: seq<nat>, t: nat, u: nat, rec: Record)
    requires t < |counts| && u < |counts| && Before(counts, t) <= |recs| < Before(counts, t + 1)
    ensures Section(recs + [rec], counts, u)
            == if u == t then Section(recs, counts, t) + [rec] else Section(recs, counts, u)
  {
    var more := recs + [rec];
    BeforeOrdered(counts, u, u + 1);
    if u < t {
      BeforeOrdered(counts, u + 1, t);
      assert more[Before(counts, u)..Before(counts, u + 1)] == recs[Before(counts, u)..Before(counts, u + 1)];
    } else if u > t {
      BeforeOrdered(counts, t + 1, u);
      assert Section(more, counts, u) == [] == Section(recs, counts, u);
    } else {
      assert more[Before(counts, t)..|more|] == recs[Before(counts, t)..] + [rec];
    }
  }

  lemma ReadOn(msg: seq<byte>, p: nat, c: nat, questions: nat, total: nat)
    requires HEADER <= |msg|
    ensures c >= total ==> ReadRecords(msg, p, c, questions, total) == Outcome(true, [])
    ensures c < total ==>
              match ReadRecord(msg, p, c >= questions)
              case Stop(ok, last) => ReadRecords(msg, p, c, questions, total) == Outcome(ok, last)
              case Go(rec, next) =>
                var rest := ReadRecords(msg, next, c + 1, questions, total);
                ReadRecords(msg, p, c, questions, total) == Outcome(rest.ok, [rec] + rest.recs)
  {
  }

  /** What a state of the loop still has to produce. */
  ghost predicate Pending(spec: Outcome, done: seq<Record>, msg: seq<byte>, p: nat, c: nat, questions: nat, total: nat)
    requires HEADER <= |msg|
  {
    var rest := ReadRecords(msg, p, c, questions, total);
    spec.ok == rest.ok && spec.recs == done + rest.recs
  }

  lemma PendingStep(spec: Outcome, done: seq<Record>, msg: seq<byte>, p: nat, c: nat, questions: nat, total: nat)
    requires HEADER <= |msg| && Pending(spec, done, msg, p, c, questions, total)
    ensures c >= total ==> spec == Outcome(true, done)
    ensures c < total ==>
              match ReadRecord(msg, p, c >= questions)
              case Stop(ok, last) => spec == Outcome(ok, done + last)
              case Go(rec, next) => Pending(spec, done + [rec], msg, next, c + 1, questions, total)
  {
    hide ReadRecord;
    ReadOn(msg, p, c, questions, total);
    hide ReadRecords;
    assert done + [] == done;
    if c < total {
      var round := ReadRecord(msg, p, c >= questions);
      if round.Go? {
        var rest := ReadRecords(msg, round.next, c + 1, questions, total);
        assert done + ([round.rec] + rest.recs) == done + [round.rec] + rest.recs;
      }
    }
  }

  /** The sections hold the records read so far. */
  ghost predicate Sorted(secs: seq<seq<Record>>, done: seq<Record>, counts: seq<nat>) {
    |secs| == |counts| == 4 && forall u :: 0 <= u < 4 ==> secs[u] == Section(done, counts, u)
  }

  lemma SortedSnoc(secs: seq<seq<Record>>, done: seq<Record>, counts: seq<nat>, t: nat, rec: Record)
    requires Sorted(secs, done, counts) && t < 4 && Before(counts, t) <= |done| < Before(counts, t + 1)
    ensures Sorted(secs[t := secs[t] + [rec]], done + [rec], counts)
  {
    hide Section;
    forall u | 0 <= u < 4
      ensures secs[t := secs[t] + [rec]][u] == Section(done + [rec], counts, u)
    {
      SectionSnoc(done, counts, t, u, rec);
    }
  }

  lemma BeforeNext(counts: seq<nat>, t: nat)
    requires t < |counts|
    ensures Before(counts, 0) == 0 && Before(counts, t + 1) == Before(counts, t) + counts[t]
  {
  }

  lemma FourCounts(counts: seq<nat>)
    requires |counts| == 4
    ensures Before(counts, 4) == counts[0] + counts[1] + counts[2] + counts[3]
  {
    assert Before(counts, 1) == counts[0];
    assert Before(counts, 3) == Before(counts, 1) + counts[1] + counts[2];
  }

  lemma NothingYet(msg: seq<byte>)
    requires HEADER <= |msg|
    ensures Sorted([[], [], [], []], [], Counts(msg))
    ensures Pending(DecodeSpec(msg), [], msg, HEADER, 0, Counts(msg)[0], Before(Counts(msg), 4))
  {
    hide ReadRecords, Be16;
    var rest := DecodeSpec(msg);
    assert [] + rest.recs == rest.recs;
  }

  /** The inner loop of ns_decode: on to the next section with room; there is one while records are left. */
  method FindSection(counts: seq<nat>, target0: nat, in0: nat, c: nat) returns (target: nat, inSection: nat)
    requires |counts| == 4 && target0 < 4 && in0 <= counts[target0]
    requires Before(counts, target0) + in0 == c < Before(counts, 4)
    ensures target < 4 && inSection < counts[target] && Before(counts, target) + inSection == c
  {
    target, inSection := target0, in0;
    while inSection >= counts[target]
      invariant target < 4 && inSection <= counts[target]
      invariant Before(counts, target) + inSection == c
      decreases 4 - target
    {
      BeforeNext(counts, target);
      inSection := 0;
      target := target + 1;
      assert target < 4;
    }
  }

  /**
   NameService::ns_decode on the bytes of a message.  The inner loop that moves on to the
   next section never runs past the fourth, and what ends up in each section is what the
   record numbers say.
   */
  method NsDecode(msg: seq<byte>) returns (ok: bool, secs: seq<seq<Record>>)
    ensures |msg| < HEADER ==> !ok && secs == [[], [], [], []]
    ensures |msg| >= HEADER ==> ok == DecodeSpec(msg).ok && Sorted(secs, DecodeSpec(msg).recs, Counts(msg))
  {
    hide Sorted, Pending, ReadRecord, DecodeSpec, Counts, Before;
    secs := [[], [], [], []];
    if |msg| < HEADER {
      return false, secs;
    }
    var counts := Counts(msg);
    var total := counts[0] + counts[1] + counts[2] + counts[3];
    ghost var spec := DecodeSpec(msg);
    ghost var done: seq<Record> := [];
    FourCounts(counts);
    BeforeNext(counts, 0);
    NothingYet(msg);

    var ptr, target, inSection := HEADER, 0, 0;
    var c := 0;
    while c < total
      invariant 0 <= c <= total && |done| == c
      invariant 0 <= target < 4 && 0 <= inSection <= counts[target]
      invariant Before(counts, target) + inSection == c
      invariant |secs| == 4 && Sorted(secs, done, counts)
      invariant Pending(spec, done, msg, ptr, c, counts[0], total)
    {
      target, inSection := FindSection(counts, target, inSection, c);
      BeforeNext(counts, target);
      inSection := inSection + 1;

      var round, pushed := DecodeRecord(msg, ptr, c >= counts[0]);
      PendingStep(spec, done, msg, ptr, c, counts[0], total);
      if pushed.Some? {
        SortedSnoc(secs, done, counts, target, pushed.value);
        secs := secs[target := secs[target] + [pushed.value]];
      } else {
        assert done + [] == done;
      }
      if round.Stop? {
        return round.ok, secs;
      }
      done := done + [round.rec];
      ptr := round.next;
      c := c + 1;
    }
    PendingStep(spec, done, msg, ptr, c, counts[0], total);
    return true, secs;
  }

  /** The body of one round, in the order of the original; the record is pushed before it is filled. */
  method DecodeRecord(msg: seq<byte>, ptr: nat, hasData: bool) returns (round: Round, pushed: Option<Record>)
    requires HEADER <= |msg|
    ensures round == ReadRecord(msg, ptr, hasData)
    ensures match round
            case Stop(_, last) => last == if pushed.Some? then [pushed.value] else []
            case Go(rec, _) => pushed == Some(rec)
  {
    hide Parse, Be16;
    var ep := |msg|;
    if ep <= ptr {
      return Stop(false, []), None;
    }
    var rec := Record(ptr, None, None);
    var r, _, _ := ParseLabel(msg, ptr, ep - ptr, ep - HEADER);
    ParseAdvances(msg, ptr, ep, ep - HEADER);
    if r.None? {
      return Stop(true, [rec]), Some(rec);
    }
    var p := r.value;
    if ep <= p {
      return Stop(false, [rec]), Some(rec);
    }
    if ep - p < 4 {
      return Stop(true, [rec]), Some(rec);
    }
    rec := rec.(kind := Some(Be16(msg, p)));
    p := p + 4;
    if hasData {
      if ep - p < 6 {
        return Stop(true, [rec]), Some(rec);
      }
      var len := Be16(msg, p + 4);
      p := p + 6;
      if ep - p < len {
        return Stop(true, [rec]), Some(rec);
      }
      rec := rec.(data := Some(Slice(p, len)));
      p := p + len;
    }
    return Go(rec, p), Some(rec);
  }

  /** Whatever the header announces, at most one record per five bytes of body, and one, is stored. */
  lemma {:induction false} FewRecords(msg: seq<byte>, p: nat, c: nat, questions: nat, total: nat)
    requires HEADER <= |msg| && p <= |msg|
    ensures |ReadRecords(msg, p, c, questions, total).recs| <= (|msg| - p) / 5 + 1
    decreases total - c
  {
    if c < total {
      var round := ReadRecord(msg, p, c >= questions);
      if round.Go? {
        FewRecords(msg, round.next, c + 1, questions, total);
      }
    }
  }

  /** The bound for a whole message, and every data slice stored lies inside it. */
  lemma {:induction false} MessageBounded(msg: seq<byte>)
    requires HEADER <= |msg|
    ensures |DecodeSpec(msg).recs| <= (|msg| - HEADER) / 5 + 1
    ensures forall i :: 0 <= i < |DecodeSpec(msg).recs| ==> Inside(DecodeSpec(msg).recs[i], |msg|)
  {
    hide ReadRecords;
    FewRecords(msg, HEADER, 0, Counts(msg)[0], Before(Counts(msg), 4));
    RecordsInside(msg, HEADER, 0, Counts(msg)[0], Before(Counts(msg), 4));
  }

  predicate Inside(rec: Record, size: nat) {
    rec.nameAt < size && (rec.data.Some? ==> rec.data.value.at + rec.data.value.len <= size)
  }

  lemma RecordInside(msg: seq<byte>, p: nat, hasData: bool)
    requires HEADER <= |msg|
    ensures match ReadRecord(msg, p, hasData)
            case Stop(_, last) => forall i :: 0 <= i < |last| ==> Inside(last[i], |msg|)
            case Go(rec, _) => Inside(rec, |msg|)
  {
    hide Parse, Be16;
  }

  lemma {:induction false} RecordsInside(msg: seq<byte>, p: nat, c: nat, questions: nat, total: nat)
    requires HEADER <= |msg|
    ensures var recs := ReadRecords(msg, p, c, questions, total).recs;
            forall i :: 0 <= i < |recs| ==> Inside(recs[i], |msg|)
    decreases total - c
  {
    hide ReadRecord, ReadRecords;
    ReadOn(msg, p, c, questions, total);
    if c < total {
      RecordInside(msg, p, c >= questions);
      var round := ReadRecord(msg, p, c >= questions);
      if round.Go? {
        RecordsInside(msg, round.next, c + 1, questions, total);
      }
    }
  }
}
