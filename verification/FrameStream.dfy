/** A file of frames, each a size followed by that many bytes, and the loop that
    reads it (command_storage.cpp:148-168 and 176-214). */
module FrameStreams {
  import opened Common
  import opened Bytes

  /** What a load finds: the items, and how many leading bytes stay in the file.
      `Overrun` is a read past the end of the file. */
  datatype Loaded<T> = Overrun | Loaded(items: seq<T>, kept: nat)

  /** Reads one item at the start of a text; also says how many bytes it took. */
  type Parser<T> = seq<Byte> -> Option<(T, nat)>

  function Frame(payload: seq<Byte>): (b: seq<Byte>)
    requires |payload| < WORD
    ensures |b| == 8 + |payload|
  {
    WordBytes(|payload|) + payload
  }

  ghost predicate Fit(payloads: seq<seq<Byte>>)
  {
    forall i | 0 <= i < |payloads| :: |payloads[i]| < WORD
  }

  function Stream(payloads: seq<seq<Byte>>): seq<Byte>
    requires Fit(payloads)
  {
    if payloads == [] then [] else Frame(payloads[0]) + Stream(payloads[1..])
  }

  /** What is at the start of a text: an item or a gap with the bytes it took, a frame
      that runs past the end, or too little to read. */
  datatype Next<T> = Item(x: Option<T>, size: nat) | Cut | TooShort

  /** One read of the load loop: a size that runs past the end means a cut file; a zero
      size is a gap; otherwise the item is read from the bytes that follow, whatever the
      size said. */
  function ReadFrame<T>(parse: Parser<T>, b: seq<Byte>): (r: Next<T>)
    ensures r.Item? ==> 8 <= r.size <= |b|
  {
    if |b| < 8 then TooShort
    else if ReadWord(b) > |b| - 8 then Cut
    else if ReadWord(b) == 0 then Item(None, 8)
    else
      match parse(b[8..])
      case None => TooShort
      case Some((x, used)) => if used > |b| - 8 then TooShort else Item(Some(x), 8 + used)
  }

  /** The load loop. */
  function Load<T>(parse: Parser<T>, b: seq<Byte>): Loaded<T>
    decreases |b|
  {
    if b == [] then Loaded([], 0)
    else
      match ReadFrame(parse, b)
      case TooShort => Overrun
      case Cut => Loaded([], 0)
      case Item(x, size) => Push(x, size, Load(parse, b[size..]))
  }

  /** An item, or a gap, of `size` bytes in front of what the rest loads as. */
  function Push<T>(x: Option<T>, size: nat, r: Loaded<T>): Loaded<T>
  {
    if r.Overrun? then r else Loaded(if x.Some? then [x.value] + r.items else r.items, size + r.kept)
  }

  /** One turn of the load loop, at byte `i`. */
  lemma LoadAt<T(!new)>(parse: Parser<T>, b: seq<Byte>, i: nat)
    requires i < |b|
    ensures match ReadFrame(parse, b[i..])
            case TooShort => Load(parse, b[i..]) == Overrun
            case Cut => Load(parse, b[i..]) == Loaded([], 0)
            case Item(x, n) => i + n <= |b| && Load(parse, b[i..]) == Push(x, n, Load(parse, b[i + n..]))
  {
    var next := ReadFrame(parse, b[i..]);
    if next.Item? {
      assert b[i..][next.size..] == b[i + next.size..];
    }
  }

  /** A load that has read `before` from the first `n` bytes and finds `r` in the rest. */
  function Joined<T>(before: seq<T>, n: nat, r: Loaded<T>): Loaded<T>
  {
    if r.Overrun? then r else Loaded(before + r.items, n + r.kept)
  }

  lemma JoinedPush<T(!new)>(before: seq<T>, i: nat, x: Option<T>, n: nat, r: Loaded<T>)
    ensures Joined(before, i, Push(x, n, r)) == Joined(if x.Some? then before + [x.value] else before, i + n, r)
  {
    if x.Some? && r.Loaded? {
      assert before + ([x.value] + r.items) == before + [x.value] + r.items;
    }
  }

  lemma JoinedAt<T(!new)>(parse: Parser<T>, b: seq<Byte>, items: seq<T>, i: nat)
    requires i < |b|
    ensures match ReadFrame(parse, b[i..])
            case TooShort => Load(parse, b[i..]) == Overrun
            case Cut => Joined(items, i, Load(parse, b[i..])) == Loaded(items, i)
            case Item(x, n) =>
              && i + n <= |b|
              && Joined(items, i, Load(parse, b[i..]))
                 == Joined(if x.Some? then items + [x.value] else items, i + n, Load(parse, b[i + n..]))
  {
    LoadAt(parse, b, i);
    var next := ReadFrame(parse, b[i..]);
    if next.Item? {
      JoinedPush(items, i, next.x, next.size, Load(parse, b[i + next.size..]));
    }
  }

  /** The load loop as it runs; `ok` is false where it reads past the end. */
  method ReadStream<T(!new)>(parse: Parser<T>, b: seq<Byte>) returns (ok: bool, items: seq<T>, kept: nat)
    ensures ok ==> Load(parse, b) == Loaded(items, kept) && kept <= |b|
    ensures !ok ==> Load(parse, b) == Overrun
  {
    ok, items, kept := true, [], 0;
    assert b[0..] == b;
    while kept < |b|
      invariant kept <= |b|
      invariant Load(parse, b) == Joined(items, kept, Load(parse, b[kept..]))
    {
      JoinedAt(parse, b, items, kept);
      var next := ReadFrame(parse, b[kept..]);
      if next.TooShort? { return false, items, kept; }
      if next.Cut? { return; }
      if next.x.Some? { items := items + [next.x.value]; }
      kept := kept + next.size;
    }
  }

  /** The payloads are what a printer made of the items: nothing for a skipped item,
      and otherwise a text the parser reads back from, whatever comes after it. */
  ghost predicate Prints<T(!new)>(parse: Parser<T>, x: Option<T>, payload: seq<Byte>)
  {
    && |payload| < WORD
    && (x.None? <==> payload == [])
    && (x.Some? ==> forall rest :: parse(payload + rest) == Some((x.value, |payload|)))
  }

  ghost predicate AllPrint<T(!new)>(parse: Parser<T>, xs: seq<Option<T>>, payloads: seq<seq<Byte>>)
  {
    |xs| == |payloads| && forall i | 0 <= i < |xs| :: Prints(parse, xs[i], payloads[i])
  }

  function Present<T>(xs: seq<Option<T>>): seq<T>
  {
    if xs == [] then [] else if xs[0].Some? then [xs[0].value] + Present(xs[1..]) else Present(xs[1..])
  }

  lemma PayloadsFit<T(!new)>(parse: Parser<T>, xs: seq<Option<T>>, payloads: seq<seq<Byte>>)
    requires AllPrint(parse, xs, payloads)
    ensures Fit(payloads)
  {
    forall i | 0 <= i < |payloads|
      ensures |payloads[i]| < WORD
    {
      assert Prints(parse, xs[i], payloads[i]);
    }
  }

  /** The size in front of a frame only bounds it: the item takes what it takes. */
  lemma SizeOnlyBounds<T(!new)>(parse: Parser<T>, x: T, payload: seq<Byte>, size: Word, rest: seq<Byte>)
    requires Prints(parse, Some(x), payload) && 0 < size <= |payload| + |rest|
    ensures Load(parse, WordBytes(size) + payload + rest) == Push(Some(x), 8 + |payload|, Load(parse, rest))
  {
    var b := WordBytes(size) + payload + rest;
    WordRoundTrip(size, payload + rest);
    assert b == WordBytes(size) + (payload + rest);
    assert b[8..] == payload + rest;
    assert b[8 + |payload|..] == rest;
  }

  /** One whole frame in front of anything is read as its item. */
  lemma LoadFrame<T(!new)>(parse: Parser<T>, x: Option<T>, payload: seq<Byte>, rest: seq<Byte>)
    requires Prints(parse, x, payload)
    ensures Load(parse, Frame(payload) + rest) == Push(x, 8 + |payload|, Load(parse, rest))
  {
    if x.Some? {
      SizeOnlyBounds(parse, x.value, payload, |payload|, rest);
    } else {
      LoadGap(parse, rest);
    }
  }

  lemma LoadGap<T(!new)>(parse: Parser<T>, rest: seq<Byte>)
    ensures Load(parse, Frame([]) + rest) == Push(None, 8, Load(parse, rest))
  {
    var b := Frame([]) + rest;
    assert b == WordBytes(0) + rest;
    WordRoundTrip(0, rest);
    assert b[8..] == rest;
  }

  lemma Tail<T(!new)>(parse: Parser<T>, xs: seq<Option<T>>, payloads: seq<seq<Byte>>)
    requires AllPrint(parse, xs, payloads) && xs != []
    ensures AllPrint(parse, xs[1..], payloads[1..]) && Fit(payloads[1..])
  {
    forall i | 0 <= i < |xs[1..]|
      ensures Prints(parse, xs[1..][i], payloads[1..][i])
    {
      assert Prints(parse, xs[i + 1], payloads[i + 1]);
    }
    PayloadsFit(parse, xs[1..], payloads[1..]);
  }

  lemma PushJoined<T(!new)>(x: Option<T>, n: nat, items: seq<T>, k: nat, r: Loaded<T>)
    ensures Push(x, n, Joined(items, k, r)) == Joined(if x.Some? then [x.value] + items else items, n + k, r)
  {
    if x.Some? && r.Loaded? {
      assert [x.value] + (items + r.items) == [x.value] + items + r.items;
    }
  }

  lemma LoadFrameThen<T(!new)>(parse: Parser<T>, x: Option<T>, payload: seq<Byte>, items: seq<T>, tail: seq<Byte>, rest: seq<Byte>)
    requires Prints(parse, x, payload)
    requires Load(parse, tail + rest) == Joined(items, |tail|, Load(parse, rest))
    ensures Load(parse, Frame(payload) + tail + rest)
            == Joined(if x.Some? then [x.value] + items else items, 8 + |payload| + |tail|, Load(parse, rest))
  {
    LoadFrame(parse, x, payload, tail + rest);
    assert Frame(payload) + tail + rest == Frame(payload) + (tail + rest);
    PushJoined(x, 8 + |payload|, items, |tail|, Load(parse, rest));
  }

  lemma LoadNoFrames<T(!new)>(parse: Parser<T>, rest: seq<Byte>)
    ensures Load(parse, [] + rest) == Joined([], 0, Load(parse, rest))
  {
    var r := Load(parse, rest);
    assert [] + rest == rest;
    assert r.Loaded? ==> [] + r.items == r.items;
  }

  /** Reading whole frames followed by `rest`. */
  lemma {:induction false} LoadFrames<T(!new)>(parse: Parser<T>, xs: seq<Option<T>>, payloads: seq<seq<Byte>>, rest: seq<Byte>)
    requires AllPrint(parse, xs, payloads) && Fit(payloads)
    ensures Load(parse, Stream(payloads) + rest) == Joined(Present(xs), |Stream(payloads)|, Load(parse, rest))
    decreases |xs|
  {
    if xs == [] {
      LoadNoFrames(parse, rest);
    } else {
      assert Prints(parse, xs[0], payloads[0]);
      Tail(parse, xs, payloads);
      LoadFrames(parse, xs[1..], payloads[1..], rest);
      LoadFrameThen(parse, xs[0], payloads[0], Present(xs[1..]), Stream(payloads[1..]), rest);
    }
  }

  /** A whole stream loads as the items it was written from. */
  lemma LoadStream<T(!new)>(parse: Parser<T>, xs: seq<Option<T>>, payloads: seq<seq<Byte>>)
    requires AllPrint(parse, xs, payloads) && Fit(payloads)
    ensures Load(parse, Stream(payloads)) == Loaded(Present(xs), |Stream(payloads)|)
  {
    LoadFrames(parse, xs, payloads, []);
    assert Stream(payloads) + [] == Stream(payloads);
  }

  lemma {:induction false} StreamSplit(payloads: seq<seq<Byte>>, k: nat)
    requires Fit(payloads) && k < |payloads|
    ensures Fit(payloads[..k]) && Fit(payloads[k + 1..])
    ensures Stream(payloads) == Stream(payloads[..k]) + Frame(payloads[k]) + Stream(payloads[k + 1..])
  {
    if k > 0 {
      StreamSplit(payloads[1..], k - 1);
      assert payloads[1..][..k - 1] == payloads[..k][1..];
      assert payloads[1..][k..] == payloads[k + 1..];
    }
  }

  lemma StreamAppend(payloads: seq<seq<Byte>>, payload: seq<Byte>)
    requires Fit(payloads) && |payload| < WORD
    ensures Fit(payloads + [payload])
    ensures Stream(payloads + [payload]) == Stream(payloads) + Frame(payload)
  {
    var all := payloads + [payload];
    StreamSplit(all, |payloads|);
    assert all[..|payloads|] == payloads && all[|payloads| + 1..] == [];
  }

  lemma StreamPrefix(payloads: seq<seq<Byte>>, k: nat, part: nat)
    requires Fit(payloads) && k < |payloads| && part <= 8 + |payloads[k]|
    ensures Fit(payloads[..k])
    ensures |Stream(payloads[..k])| + part <= |Stream(payloads)|
    ensures Stream(payloads)[..|Stream(payloads[..k])| + part] == Stream(payloads[..k]) + Frame(payloads[k])[..part]
  {
    StreamSplit(payloads, k);
  }

  /** A stream cut inside its next frame loads as the whole frames before the cut and
      is shortened to them, unless the cut is inside the size. */
  lemma LoadCut<T(!new)>(parse: Parser<T>, xs: seq<Option<T>>, payloads: seq<seq<Byte>>, next: seq<Byte>, part: nat)
    requires AllPrint(parse, xs, payloads) && Fit(payloads)
    requires |next| < WORD && part < 8 + |next|
    ensures var b := Stream(payloads) + Frame(next)[..part];
            Load(parse, b) == if 0 < part < 8 then Overrun else Loaded(Present(xs), |Stream(payloads)|)
    ensures (Stream(payloads) + Frame(next)[..part])[..|Stream(payloads)|] == Stream(payloads)
  {
    var rest := Frame(next)[..part];
    if part >= 8 {
      WordRoundTrip(|next|, next[..part - 8]);
      assert rest == WordBytes(|next|) + next[..part - 8];
    }
    LoadFrames(parse, xs, payloads, rest);
  }
}
