/**
 Domain names on the wire (section 4.1.4 of RFC 1035) and NameService::parse_label
 of src/modules/utils.cc.

 Offsets are relative to the start of the message.  A run of labels is read up to
 `limit`; after a jump the limit is `total`, the length of the message without its
 12-byte header, because that is the bound the original passes for jumps.
 */
module DnsName {
  import opened Common

  /** A name as the wire spells it from some offset on. */
  datatype Wire = End | Label(text: seq<byte>, rest: Wire) | Jump(target: nat, rest: Wire)

  const DOT: byte := 46

  /** Every label followed by a dot. */
  function Text(w: Wire): seq<byte> {
    match w
    case End => []
    case Label(t, rest) => t + [0x2E] + Text(rest)
    case Jump(_, rest) => Text(rest)
  }

  /** Bytes in labels. */
  function Size(w: Wire): nat {
    match w
    case End => 0
    case Label(t, rest) => |t| + Size(rest)
    case Jump(_, rest) => Size(rest)
  }

  /** The offset past a name that starts at `p`: past its terminator or past its first pointer. */
  function After(w: Wire, p: nat): nat {
    match w
    case End => p + 1
    case Label(t, rest) => After(rest, p + 1 + |t|)
    case Jump(_, _) => p + 2
  }

  function Target(hi: byte, lo: byte): nat {
    (hi * 256 + lo) % 0x4000
  }

  /**
   `w` is what the bytes at `p` spell.  A byte of 192 or more starts a pointer, except
   right after a jump (`jumped`), where it is read as a label length.
   */
  ghost predicate At(msg: seq<byte>, p: nat, limit: nat, total: nat, w: Wire, jumped: bool)
    requires limit <= |msg| && total <= |msg|
    decreases w
  {
    match w
    case End => p < limit && msg[p] == 0
    case Label(t, rest) =>
      && t != [] && p + 1 + |t| <= limit
      && msg[p] == |t| && msg[p + 1..p + 1 + |t|] == t
      && (jumped || |t| < 192)
      && At(msg, p + 1 + |t|, limit, total, rest, false)
    case Jump(target, rest) =>
      && !jumped && p + 2 <= limit && msg[p] >= 192
      && Target(msg[p], msg[p + 1]) == target < total
      && At(msg, target, total, total, rest, true)
  }

  datatype Name = Name(next: nat, text: seq<byte>)

  /** Where the next length byte is read, and the offset to return if a jump was taken. */
  datatype Cursor = Cursor(p: nat, limit: nat, back: Option<nat>)

  /** The optional jump at the head of an iteration. */
  function Follow(msg: seq<byte>, c: Cursor, total: nat): (r: Option<Cursor>)
    requires c.limit <= |msg| && total <= |msg|
    ensures r.Some? ==> r.value.p < r.value.limit <= |msg|
  {
    if c.p >= c.limit then None
    else if msg[c.p] >= 192 then
      if c.p + 2 > c.limit then None
      else
        var jmp := Target(msg[c.p], msg[c.p + 1]);
        if jmp >= total then None
        else Some(Cursor(jmp, total, if c.back.None? then Some(c.p + 2) else c.back))
    else Some(c)
  }

  /** The loop of parse_label from a cursor on, `len` label bytes and `text` having been read. */
  function ParseFrom(msg: seq<byte>, c: Cursor, total: nat, len: nat, text: seq<byte>): Option<Name>
    requires c.limit <= |msg| && total <= |msg|
    decreases 256 - len
  {
    if len >= 256 then None
    else
      match Follow(msg, c, total)
      case None => None
      case Some(d) =>
        var n := msg[d.p];
        if n == 0 then Some(Name(if d.back.None? then d.p + 1 else d.back.value, text))
        else if d.p + n + 1 >= d.limit then None
        else ParseFrom(msg, d.(p := d.p + n + 1), total, len + n, text + msg[d.p + 1..d.p + 1 + n] + [DOT])
  }

  function Parse(msg: seq<byte>, start: nat, limit: nat, total: nat): Option<Name>
    requires limit <= |msg| && total <= |msg|
  {
    ParseFrom(msg, Cursor(start, limit, None), total, 0, [])
  }

  /** One iteration that reads a label. */
  lemma StepLabel(msg: seq<byte>, c: Cursor, total: nat, len: nat, text: seq<byte>, d: Cursor)
    requires c.limit <= |msg| && total <= |msg| && len < 256 && Follow(msg, c, total) == Some(d)
    requires msg[d.p] != 0 && d.p + msg[d.p] + 1 < d.limit
    ensures ParseFrom(msg, c, total, len, text)
            == ParseFrom(msg, d.(p := d.p + msg[d.p] + 1), total, len + msg[d.p],
                         text + msg[d.p + 1..d.p + 1 + msg[d.p]] + [DOT])
  {
  }

  /** One iteration that ends the loop. */
  lemma StepLast(msg: seq<byte>, c: Cursor, total: nat, len: nat, text: seq<byte>)
    requires c.limit <= |msg| && total <= |msg|
    ensures len >= 256 || Follow(msg, c, total).None? ==> ParseFrom(msg, c, total, len, text).None?
    ensures len < 256 && Follow(msg, c, total).Some? ==>
              var d := Follow(msg, c, total).value;
              if msg[d.p] == 0 then
                ParseFrom(msg, c, total, len, text) == Some(Name(if d.back.None? then d.p + 1 else d.back.value, text))
              else d.p + msg[d.p] + 1 >= d.limit ==> ParseFrom(msg, c, total, len, text).None?
  {
  }

  /** NameService::parse_label.  `rounds` counts iterations: there are at most 256, whatever the bytes. */
  method ParseLabel(msg: seq<byte>, start: nat, remain: nat, total: nat)
    returns (r: Option<nat>, s: seq<byte>, ghost rounds: nat)
    requires start + remain <= |msg| && total <= |msg|
    ensures var spec := Parse(msg, start, start + remain, total);
            if r.None? then spec.None? else spec == Some(Name(r.value, s))
    ensures rounds <= 256
  {
    hide Target, ParseFrom;
    var p: nat, left: nat := start, remain;
    var len := 0;
    var rp: Option<nat> := None;
    s := [];
    rounds := 0;
    while len < 256
      invariant p + left <= |msg|
      invariant ParseFrom(msg, Cursor(p, p + left, rp), total, len, s) == Parse(msg, start, start + remain, total)
      invariant rounds <= len && rounds <= 256
      decreases 256 - len
    {
      rounds := rounds + 1;
      ghost var c := Cursor(p, p + left, rp);
      StepLast(msg, c, total, len, s);
      if left < 1 {
        return None, s, rounds;
      }
      if msg[p] >= 192 {
        if left < 2 {
          return None, s, rounds;
        }
        var jmp := Target(msg[p], msg[p + 1]);
        if jmp >= total {
          return None, s, rounds;
        }
        if rp.None? {
          rp := Some(p + 2);
        }
        p, left := jmp, total - jmp;
      }
      var dataLen := msg[p];
      if dataLen == 0 {
        return if rp.None? then Some(p + 1) else rp, s, rounds;
      }
      if dataLen + 1 >= left {
        return None, s, rounds;
      }
      StepLabel(msg, c, total, len, s, Cursor(p, p + left, rp));
      s := s + msg[p + 1..p + 1 + dataLen] + [DOT];
      len := len + dataLen;
      p, left := p + dataLen + 1, left - (dataLen + 1);
    }
    StepLast(msg, Cursor(p, p + left, rp), total, len, s);
    return None, s, rounds;
  }

  // ---------------------------------------------------------------- correctness

  /** The cursor after the labels of `w`, told by a jump on the way or not. */
  function Offset(w: Wire, c: Cursor): nat {
    if c.back.Some? then c.back.value else After(w, c.p)
  }

  lemma AtStarts(msg: seq<byte>, p: nat, limit: nat, total: nat, w: Wire, jumped: bool)
    requires limit <= |msg| && total <= |msg| && At(msg, p, limit, total, w, jumped)
    ensures p < limit
  {
  }

  lemma {:induction false} Complete(msg: seq<byte>, c: Cursor, total: nat, w: Wire, len: nat, text: seq<byte>)
    requires c.limit <= |msg| && total <= |msg|
    requires At(msg, c.p, c.limit, total, w, false) && len + Size(w) < 256
    ensures ParseFrom(msg, c, total, len, text) == Some(Name(Offset(w, c), text + Text(w)))
    decreases w, 0
  {
    hide Target, ParseFrom;
    StepLast(msg, c, total, len, text);
    match w
    case End =>
      assert text + [] == text;
    case Label(t, rest) =>
      CompleteLabel(msg, c, total, t, rest, len, text);
    case Jump(target, rest) =>
      var d := Cursor(target, total, if c.back.None? then Some(c.p + 2) else c.back);
      assert Follow(msg, c, total) == Some(d);
      match rest
      case End =>
        assert text + [] == text;
      case Label(t, more) =>
        AtStarts(msg, d.p + 1 + |t|, total, total, more, false);
        StepLabel(msg, c, total, len, text, d);
        Complete(msg, d.(p := d.p + 1 + |t|), total, more, len + |t|, text + t + [DOT]);
        assert text + t + [DOT] + Text(more) == text + Text(rest);
  }

  lemma {:induction false} CompleteLabel(msg: seq<byte>, c: Cursor, total: nat, t: seq<byte>, rest: Wire,
                                         len: nat, text: seq<byte>)
    requires c.limit <= |msg| && total <= |msg|
    requires At(msg, c.p, c.limit, total, Label(t, rest), false) && len + |t| + Size(rest) < 256
    ensures ParseFrom(msg, c, total, len, text) == Some(Name(Offset(Label(t, rest), c), text + Text(Label(t, rest))))
    decreases rest, 1
  {
    hide Target, ParseFrom;
    var e := c.(p := c.p + 1 + |t|);
    AtStarts(msg, e.p, c.limit, total, rest, false);
    StepLabel(msg, c, total, len, text, c);
    Complete(msg, e, total, rest, len + |t|, text + t + [DOT]);
    assert text + t + [DOT] + Text(rest) == text + Text(Label(t, rest));
  }

  /** A name spelled where the cursor leads, put back in front of the jump that led there. */
  function Behind(msg: seq<byte>, c: Cursor, d: Cursor, w: Wire): Wire
    requires c.p < |msg|
  {
    if msg[c.p] >= 192 then Jump(d.p, w) else w
  }

  lemma FollowBack(msg: seq<byte>, c: Cursor, total: nat, d: Cursor, w: Wire)
    requires c.limit <= |msg| && total <= |msg| && Follow(msg, c, total) == Some(d)
    requires At(msg, d.p, d.limit, total, w, msg[c.p] >= 192)
    ensures var v := Behind(msg, c, d, w);
            && At(msg, c.p, c.limit, total, v, false)
            && Offset(v, c) == Offset(w, d) && Text(v) == Text(w) && Size(v) == Size(w)
  {
  }

  /** What a successful parse read: the name it followed. */
  lemma {:induction false} Sound(msg: seq<byte>, c: Cursor, total: nat, len: nat, text: seq<byte>) returns (w: Wire)
    requires c.limit <= |msg| && total <= |msg|
    requires ParseFrom(msg, c, total, len, text).Some?
    ensures At(msg, c.p, c.limit, total, w, false) && len + Size(w) < 256
    ensures ParseFrom(msg, c, total, len, text) == Some(Name(Offset(w, c), text + Text(w)))
    decreases 256 - len
  {
    hide Target, ParseFrom;
    StepLast(msg, c, total, len, text);
    var d := Follow(msg, c, total).value;
    var n := msg[d.p];
    if n == 0 {
      FollowBack(msg, c, total, d, End);
      w := Behind(msg, c, d, End);
      assert text + [] == text;
    } else {
      var t := msg[d.p + 1..d.p + 1 + n];
      var e := d.(p := d.p + n + 1);
      StepLabel(msg, c, total, len, text, d);
      var rest := Sound(msg, e, total, len + n, text + t + [DOT]);
      FollowBack(msg, c, total, d, Label(t, rest));
      w := Behind(msg, c, d, Label(t, rest));
      assert Text(w) == t + [DOT] + Text(rest);
      assert text + t + [DOT] + Text(rest) == text + Text(w);
    }
  }

  lemma {:induction false} AfterInside(msg: seq<byte>, p: nat, limit: nat, total: nat, w: Wire)
    requires limit <= |msg| && total <= |msg| && At(msg, p, limit, total, w, false)
    ensures p < After(w, p) <= limit
    decreases w
  {
    if w.Label? {
      AfterInside(msg, p + 1 + |w.text|, limit, total, w.rest);
    }
  }

  /** parse_label succeeds exactly on the names spelled at `start` with fewer than 256 label bytes. */
  lemma {:induction false} ParsesExactly(msg: seq<byte>, start: nat, limit: nat, total: nat)
    requires limit <= |msg| && total <= |msg|
    ensures Parse(msg, start, limit, total).Some?
            <==> exists w :: At(msg, start, limit, total, w, false) && Size(w) < 256
  {
    var c := Cursor(start, limit, None);
    if Parse(msg, start, limit, total).Some? {
      var w := Sound(msg, c, total, 0, []);
    }
    if w :| At(msg, start, limit, total, w, false) && Size(w) < 256 {
      Complete(msg, c, total, w, 0, []);
    }
  }

  /** Decompression: the result is the name's text and the offset past its terminator or first pointer. */
  lemma {:induction false} Decompresses(msg: seq<byte>, start: nat, limit: nat, total: nat, w: Wire)
    requires limit <= |msg| && total <= |msg|
    requires At(msg, start, limit, total, w, false) && Size(w) < 256
    ensures Parse(msg, start, limit, total) == Some(Name(After(w, start), Text(w)))
  {
    Complete(msg, Cursor(start, limit, None), total, w, 0, []);
    assert [] + Text(w) == Text(w);
  }

  /** On every byte string a success moves forward and stays inside its bound. */
  lemma {:induction false} ParseAdvances(msg: seq<byte>, start: nat, limit: nat, total: nat)
    requires limit <= |msg| && total <= |msg|
    ensures var r := Parse(msg, start, limit, total); r.Some? ==> start < r.value.next <= limit
  {
    if Parse(msg, start, limit, total).Some? {
      var w := Sound(msg, Cursor(start, limit, None), total, 0, []);
      AfterInside(msg, start, limit, total, w);
    }
  }
}
