/**
 The option loop of DHCP::decode in src/modules/dhcp.cc (options as in section 2 of
 RFC 2132), on the payload cursor and the value pool.
 */
module Dhcp {
  import opened Common
  import opened Pool

  datatype Opt = Opt(code: byte, data: seq<byte>)

  /** The options at the head of some bytes: up to code 255, or to what does not fit. */
  function ParseOpts(bytes: seq<byte>): seq<Opt>
    decreases |bytes|
  {
    if |bytes| < 2 || bytes[0] == 255 || |bytes| - 2 < bytes[1] then []
    else [Opt(bytes[0], bytes[2..2 + bytes[1]])] + ParseOpts(bytes[2 + bytes[1]..])
  }

  predicate Encodable(o: Opt) {
    o.code != 255 && |o.data| < 256
  }

  function EncodeOpt(o: Opt): seq<byte>
    requires Encodable(o)
  {
    var n: byte := |o.data|;
    [o.code, n] + o.data
  }

  function EncodeOpts(opts: seq<Opt>): seq<byte>
    requires forall i :: 0 <= i < |opts| ==> Encodable(opts[i])
  {
    if opts == [] then [] else EncodeOpt(opts[0]) + EncodeOpts(opts[1..])
  }

  lemma OptHead(o: Opt, tail: seq<byte>)
    requires Encodable(o)
    ensures ParseOpts(EncodeOpt(o) + tail) == [o] + ParseOpts(tail)
  {
    var bytes := EncodeOpt(o) + tail;
    assert bytes[0] == o.code && bytes[1] == |o.data|;
    assert bytes[2..2 + |o.data|] == o.data;
    assert bytes[2 + |o.data|..] == tail;
  }

  /** What may follow the options: code 255 and anything, or an option that is cut short, perhaps to nothing. */
  ghost predicate Ends(tail: seq<byte>) {
    (tail != [] && tail[0] == 255) || exists o :: Encodable(o) && tail < EncodeOpt(o)
  }

  lemma EndsIff(tail: seq<byte>)
    ensures Ends(tail) <==> |tail| < 2 || tail[0] == 255 || |tail| - 2 < tail[1]
  {
    if tail == [] {
      assert tail < EncodeOpt(Opt(0, []));
    } else if tail[0] != 255 && |tail| == 1 {
      assert tail < EncodeOpt(Opt(tail[0], []));
    } else if tail[0] != 255 && |tail| - 2 < tail[1] {
      var o := Opt(tail[0], tail[2..] + seq(tail[1] - (|tail| - 2), _ => 0));
      assert |o.data| == tail[1];
      assert tail < EncodeOpt(o);
    } else if tail[0] != 255 {
      forall o | Encodable(o)
        ensures !(tail < EncodeOpt(o))
      {
        assert EncodeOpt(o)[1] == |o.data| && |EncodeOpt(o)| == 2 + |o.data|;
      }
    }
  }

  /** Any options, then an end: exactly those options are read back, and a cut one adds nothing. */
  lemma {:induction false} OptsRoundTrip(opts: seq<Opt>, tail: seq<byte>)
    requires forall i :: 0 <= i < |opts| ==> Encodable(opts[i])
    requires Ends(tail)
    ensures ParseOpts(EncodeOpts(opts) + tail) == opts
  {
    EndsIff(tail);
    hide Ends, EncodeOpt;
    if opts == [] {
      assert EncodeOpts(opts) + tail == tail;
    } else {
      hide ParseOpts;
      OptHead(opts[0], EncodeOpts(opts[1..]) + tail);
      OptsRoundTrip(opts[1..], tail);
      assert EncodeOpts(opts) + tail == EncodeOpt(opts[0]) + (EncodeOpts(opts[1..]) + tail);
    }
  }

  /** Conversely all bytes are the options read from them and an end, so that nothing is skipped. */
  lemma {:induction false} OptsComplete(bytes: seq<byte>) returns (tail: seq<byte>)
    ensures Ends(tail)
    ensures forall i :: 0 <= i < |ParseOpts(bytes)| ==> Encodable(ParseOpts(bytes)[i])
    ensures bytes == EncodeOpts(ParseOpts(bytes)) + tail
    decreases |bytes|
  {
    EndsIff(bytes);
    hide Ends;
    if |bytes| < 2 || bytes[0] == 255 || |bytes| - 2 < bytes[1] {
      tail := bytes;
    } else {
      var o, rest := FirstOpt(bytes);
      hide ParseOpts, EncodeOpt;
      OptHead(o, rest);
      tail := OptsComplete(rest);
      var opts := ParseOpts(rest);
      assert ([o] + opts)[1..] == opts;
      assert EncodeOpt(o) + (EncodeOpts(opts) + tail) == EncodeOpt(o) + EncodeOpts(opts) + tail;
    }
  }

  lemma FirstOpt(bytes: seq<byte>) returns (o: Opt, rest: seq<byte>)
    requires |bytes| >= 2 && bytes[0] != 255 && |bytes| - 2 >= bytes[1]
    ensures Encodable(o) && bytes == EncodeOpt(o) + rest && |rest| < |bytes|
  {
    var n := 2 + bytes[1] as nat;
    o, rest := Opt(bytes[0], bytes[2..n]), bytes[n..];
  }

  // parameters of the module, by position in define_param order
  const OPTIONS: nat := 0
  const OPTION: nat := 1
  const OPT_TYPE: nat := 2
  const OPT_LENGTH: nat := 3
  const OPT_DATA: nat := 4

  /** An option object and its three values spell `o`. */
  ghost predicate Spells(option: Value, t: Value, l: Value, d: Value, o: Opt)
    reads option, t, l, d
  {
    && option.items == [t, l, d]
    && t.active && t.raw == [o.code]
    && l.active && |o.data| < 256 && l.raw == [|o.data|]
    && d.active && d.raw == o.data
  }

  /** The four columns of objects spell the options row by row. */
  ghost predicate Rows(os: seq<Value>, ts: seq<Value>, ls: seq<Value>, ds: seq<Value>, opts: seq<Opt>)
    reads os, ts, ls, ds
  {
    && |os| == |ts| == |ls| == |ds| == |opts|
    && forall i :: 0 <= i < |opts| ==> Spells(os[i], ts[i], ls[i], ds[i], opts[i])
  }

  /** The array holds one object per option, in order, and they spell the options. */
  ghost predicate Stored(prop: Property, arr: Value, opts: seq<Opt>)
    reads prop, prop.Objects(), arr
    requires prop.Shape()
  {
    && arr.items == prop.Retained(OPTION)
    && Rows(prop.Retained(OPTION), prop.Retained(OPT_TYPE), prop.Retained(OPT_LENGTH), prop.Retained(OPT_DATA), opts)
  }

  /** The four objects of one more option, none of them handed out before. */
  method RetainOption(prop: Property) returns (option: Value, t: Value, l: Value, d: Value)
    requires prop.Valid()
    modifies prop, prop.Objects()
    ensures prop.Valid() && prop.Retained(OPTIONS) == old(prop.Retained(OPTIONS))
    ensures prop.Retained(OPTION) == old(prop.Retained(OPTION)) + [option]
    ensures prop.Retained(OPT_TYPE) == old(prop.Retained(OPT_TYPE)) + [t]
    ensures prop.Retained(OPT_LENGTH) == old(prop.Retained(OPT_LENGTH)) + [l]
    ensures prop.Retained(OPT_DATA) == old(prop.Retained(OPT_DATA)) + [d]
    ensures option != t && option != l && option != d && t != l && t != d && l != d
    ensures forall q: nat, v :: v in old(prop.Retained(q)) ==> v !in {option, t, l, d} && unchanged(v)
    ensures prop.Objects() == old(prop.Objects()) + {option, t, l, d}
    ensures forall v :: v in {option, t, l, d} ==> v in old(prop.Objects()) || fresh(v)
  {
    hide Property.Objects, Property.Retained, Property.Shape;
    option := prop.RetainValue(OPTION);
    assert option in prop.Retained(OPTION);
    t := prop.RetainValue(OPT_TYPE);
    assert t in prop.Retained(OPT_TYPE);
    l := prop.RetainValue(OPT_LENGTH);
    assert l in prop.Retained(OPT_LENGTH);
    d := prop.RetainValue(OPT_DATA);
  }

  /** Fill one more row; rows that share no object with it stay as they are. */
  method Fill(arr: Value, option: Value, t: Value, l: Value, d: Value, o: Opt,
              ghost os: seq<Value>, ghost ts: seq<Value>, ghost ls: seq<Value>, ghost ds: seq<Value>,
              ghost done: seq<Opt>)
    requires |o.data| < 256 && option != arr && t != l && t != d && l != d
    requires Rows(os, ts, ls, ds, done)
    requires option !in os && arr !in os
    requires forall v :: v in {t, l, d} ==> v !in ts && v !in ls && v !in ds
    modifies arr`items, option`items, t`raw, t`active, l`raw, l`active, d`raw, d`active
    ensures Rows(os + [option], ts + [t], ls + [l], ds + [d], done + [o])
    ensures arr.items == old(arr.items) + [option]
  {
    t.Set([o.code]);
    l.Set([|o.data|]);
    d.Set(o.data);
    option.items := [t, l, d];
    arr.items := arr.items + [option];
    assert Spells(option, t, l, d, o);
    forall i | 0 <= i < |done|
      ensures Spells(os[i], ts[i], ls[i], ds[i], done[i])
    {
      assert old(Spells(os[i], ts[i], ls[i], ds[i], done[i]));
      assert os[i] in os && ts[i] in ts && ls[i] in ls && ds[i] in ds;
    }
  }

  /** Retain an option and its three values, fill them, push the option onto the array. */
  method AddOption(prop: Property, arr: Value, o: Opt, ghost done: seq<Opt>)
    requires prop.Valid() && prop.Retained(OPTIONS) == [arr] && Stored(prop, arr, done) && |o.data| < 256
    modifies prop, prop.Objects()
    ensures prop.Valid() && prop.Retained(OPTIONS) == [arr] && Stored(prop, arr, done + [o])
    ensures forall v :: v in prop.Objects() ==> v in old(prop.Objects()) || fresh(v)
  {
    prop.RetainedInPool();
    hide Property.Objects, Property.Retained, Property.Shape;
    ghost var os, ts := prop.Retained(OPTION), prop.Retained(OPT_TYPE);
    ghost var ls, ds := prop.Retained(OPT_LENGTH), prop.Retained(OPT_DATA);
    assert arr in prop.Retained(OPTIONS);
    forall i | 0 <= i < |os|
      ensures os[i] != arr
    {
      prop.RetainedOnce(OPTION, i, OPTIONS, 0);
    }
    var option, t, l, d := RetainOption(prop);
    assert Rows(os, ts, ls, ds, done) by {
      forall i | 0 <= i < |done|
        ensures Spells(os[i], ts[i], ls[i], ds[i], done[i])
      {
        assert old(Spells(os[i], ts[i], ls[i], ds[i], done[i]));
        assert os[i] in old(prop.Retained(OPTION)) && ts[i] in old(prop.Retained(OPT_TYPE));
        assert ls[i] in old(prop.Retained(OPT_LENGTH)) && ds[i] in old(prop.Retained(OPT_DATA));
        assert unchanged(os[i]) && unchanged(ts[i]) && unchanged(ls[i]) && unchanged(ds[i]);
      }
    }
    hide Rows, Spells;
    Fill(arr, option, t, l, d, o, os, ts, ls, ds, done);
  }

  /** The whole loop: the array ends up with exactly the options of the payload, as distinct objects. */
  method DecodeOptions(pd: Payload, prop: Property) returns (arr: Value)
    requires pd.Valid() && prop.Valid()
    requires forall pid: nat :: pid <= OPT_DATA ==> prop.Retained(pid) == []
    modifies pd, prop, prop.Objects()
    ensures pd.Valid() && prop.Valid() && prop.Retained(OPTIONS) == [arr]
    ensures Stored(prop, arr, ParseOpts(old(pd.Rest())))
    ensures forall i, j :: 0 <= i < j < |arr.items| ==> arr.items[i] != arr.items[j]
  {
    hide Property.Objects, Property.Retained, Property.Shape, ParseOpts, Payload.Rest;
    arr := prop.RetainValue(OPTIONS);
    ghost var all := ParseOpts(pd.Rest());
    ghost var done: seq<Opt> := [];
    ghost var os: seq<Value>, ts: seq<Value>, ls: seq<Value>, ds: seq<Value> := [], [], [], [];
    var more := true;
    assert Rows(os, ts, ls, ds, done);
    assert SplitAt(all, [], all);
    hide Rows, Spells, SplitAt;
    while more
      invariant pd.Valid() && prop.Valid() && prop.Retained(OPTIONS) == [arr]
      invariant prop.Retained(OPTION) == os && prop.Retained(OPT_TYPE) == ts
      invariant prop.Retained(OPT_LENGTH) == ls && prop.Retained(OPT_DATA) == ds
      invariant arr.items == os && Rows(os, ts, ls, ds, done)
      invariant forall v :: v in prop.Objects() ==> v in old(prop.Objects()) || fresh(v)
      invariant SplitAt(all, done, if more then ParseOpts(pd.Rest()) else [])
      decreases more, pd.length
    {
      SplitStep(all, done, ParseOpts(pd.Rest()));
      var o := NextOption(pd, os, ts, ls, ds, done);
      if o.None? {
        more := false;
      } else {
        AddOption(prop, arr, o.value, done);
        done := done + [o.value];
        os, ts := prop.Retained(OPTION), prop.Retained(OPT_TYPE);
        ls, ds := prop.Retained(OPT_LENGTH), prop.Retained(OPT_DATA);
      }
    }
    SplitStep(all, done, []);
    OptionsApart(prop, arr, done);
  }

  /** `done` and what the rest of the payload holds make up all the options. */
  ghost predicate SplitAt(all: seq<Opt>, done: seq<Opt>, rest: seq<Opt>) {
    all == done + rest
  }

  lemma SplitStep(all: seq<Opt>, done: seq<Opt>, rest: seq<Opt>)
    requires SplitAt(all, done, rest)
    ensures rest == [] ==> all == done
    ensures rest != [] ==> SplitAt(all, done + [rest[0]], rest[1..])
  {
    assert done + [] == done;
  }

  lemma OptionsApart(prop: Property, arr: Value, opts: seq<Opt>)
    requires prop.Shape() && Stored(prop, arr, opts)
    ensures forall i, j :: 0 <= i < j < |arr.items| ==> arr.items[i] != arr.items[j]
  {
    forall i, j | 0 <= i < j < |arr.items|
      ensures arr.items[i] != arr.items[j]
    {
      prop.RetainedOnce(OPTION, i, OPTION, j);
    }
  }

  lemma ParseOne(bytes: seq<byte>)
    ensures |bytes| < 2 || bytes[0] == 255 || |bytes| - 2 < bytes[1] ==> ParseOpts(bytes) == []
    ensures |bytes| >= 2 && bytes[0] != 255 && |bytes| - 2 >= bytes[1] ==>
              ParseOpts(bytes) == [Opt(bytes[0], bytes[2..2 + bytes[1]])] + ParseOpts(bytes[2 + bytes[1]..])
  {
  }

  /** One round of cursor moves: the next option, or none when the loop ends.  Stored rows stay as they are. */
  method NextOption(pd: Payload, ghost os: seq<Value>, ghost ts: seq<Value>, ghost ls: seq<Value>, ghost ds: seq<Value>,
                    ghost done: seq<Opt>)
    returns (o: Option<Opt>)
    requires pd.Valid() && Rows(os, ts, ls, ds, done)
    modifies pd`ptr, pd`length
    ensures pd.Valid() && Rows(os, ts, ls, ds, done)
    ensures o.None? ==> ParseOpts(old(pd.Rest())) == []
    ensures o.Some? ==>
              && |o.value.data| < 256 && pd.length < old(pd.length)
              && ParseOpts(old(pd.Rest())) == [o.value] + ParseOpts(pd.Rest())
  {
    hide ParseOpts;
    o := ReadOption(pd);
    forall i | 0 <= i < |done|
      ensures Spells(os[i], ts[i], ls[i], ds[i], done[i])
    {
      assert old(Spells(os[i], ts[i], ls[i], ds[i], done[i]));
    }
  }

  method ReadOption(pd: Payload) returns (o: Option<Opt>)
    requires pd.Valid()
    modifies pd`ptr, pd`length
    ensures pd.Valid()
    ensures o.None? ==> ParseOpts(old(pd.Rest())) == []
    ensures o.Some? ==>
              && |o.value.data| < 256 && pd.length < old(pd.length)
              && ParseOpts(old(pd.Rest())) == [o.value] + ParseOpts(pd.Rest())
  {
    hide ParseOpts;
    ghost var rest := pd.Rest();
    ParseOne(rest);
    var h := pd.Retain(2);
    if h.None? {
      return None;
    }
    assert pd.bytes[h.value] == rest[..2][0] && pd.bytes[h.value + 1] == rest[..2][1];
    if pd.bytes[h.value] == 255 {
      return None;
    }
    var len := pd.bytes[h.value + 1];
    var b := pd.Retain(len);
    if b.None? {
      return None;
    }
    assert rest[2..][..len] == rest[2..2 + len] && rest[2..][len..] == rest[2 + len..];
    return Some(Opt(pd.bytes[h.value], pd.bytes[b.value..b.value + len]));
  }
}
