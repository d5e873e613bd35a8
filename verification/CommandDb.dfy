/** The records of the command database as bytes (command_storage.cpp:52-67 and 108-133). */
module CommandDb {
  import opened Common
  import opened Bytes
  import opened FrameStreams

  /** A record as it is written: the implicit inputs in the order of the hash set. */
  datatype Raw = Raw(hash: Word, mtime: Time, inputs: seq<Word>)

  function Words(ws: seq<Word>): (b: seq<Byte>)
    ensures |b| == 8 * |ws|
  {
    if ws == [] then [] else WordBytes(ws[0]) + Words(ws[1..])
  }

  function ReadWords(b: seq<Byte>, n: nat): (ws: seq<Word>)
    requires |b| >= 8 * n
    ensures |ws| == n
    decreases n
  {
    if n == 0 then [] else [ReadWord(b)] + ReadWords(b[8..], n - 1)
  }

  lemma ReadOneWord(w: Word, tail: seq<Byte>, n: nat)
    requires |tail| >= 8 * n
    ensures ReadWords(WordBytes(w) + tail, n + 1) == [w] + ReadWords(tail, n)
  {
    WordRoundTrip(w, tail);
    assert (WordBytes(w) + tail)[8..] == tail;
  }

  lemma {:induction false} WordsRoundTrip(ws: seq<Word>, rest: seq<Byte>)
    ensures ReadWords(Words(ws) + rest, |ws|) == ws
  {
    if ws != [] {
      var tail := Words(ws[1..]) + rest;
      assert Words(ws) + rest == WordBytes(ws[0]) + tail;
      WordsRoundTrip(ws[1..], rest);
      ReadOneWord(ws[0], tail, |ws| - 1);
    }
  }

  lemma {:induction false} WordsAppend(ws: seq<Word>, w: Word)
    ensures Words(ws + [w]) == Words(ws) + WordBytes(w)
  {
    if ws == [] {
      assert ws + [w] == [w];
    } else {
      WordsAppend(ws[1..], w);
      assert (ws + [w])[1..] == ws[1..] + [w];
    }
  }

  predicate Fits(r: Raw)
  {
    24 + 8 * |r.inputs| < WORD
  }

  function PrintRecord(r: Raw): (b: seq<Byte>)
    requires Fits(r)
    ensures |b| == 24 + 8 * |r.inputs|
  {
    WordBytes(r.hash) + TimeBytes(r.mtime) + WordBytes(|r.inputs|) + Words(r.inputs)
  }

  function ParseRecord(b: seq<Byte>): Option<(Raw, nat)>
  {
    if |b| < 24 then None
    else
      var n := ReadWord(b[16..]);
      if |b| - 24 < 8 * n then None
      else Some((Raw(ReadWord(b), ReadTime(b[8..]), ReadWords(b[24..], n)), 24 + 8 * n))
  }

  lemma HeaderReadsBack(r: Raw, tail: seq<Byte>)
    requires Fits(r)
    ensures var b := WordBytes(r.hash) + TimeBytes(r.mtime) + WordBytes(|r.inputs|) + tail;
            && |b| == 24 + |tail| && ReadWord(b) == r.hash && ReadTime(b[8..]) == r.mtime
            && ReadWord(b[16..]) == |r.inputs| && b[24..] == tail
  {
    var time, count := TimeBytes(r.mtime), WordBytes(|r.inputs|);
    var b := WordBytes(r.hash) + time + count + tail;
    assert b == WordBytes(r.hash) + (time + count + tail);
    WordRoundTrip(r.hash, time + count + tail);
    assert b[8..] == time + (count + tail);
    TimeRoundTrip(r.mtime, count + tail);
    assert b[16..] == count + tail;
    WordRoundTrip(|r.inputs|, tail);
  }

  lemma RecordPrints(r: Raw)
    requires Fits(r)
    ensures Prints(ParseRecord, Some(r), PrintRecord(r))
  {
    forall rest: seq<Byte>
      ensures ParseRecord(PrintRecord(r) + rest) == Some((r, |PrintRecord(r)|))
    {
      HeaderReadsBack(r, Words(r.inputs) + rest);
      WordsRoundTrip(r.inputs, rest);
      assert PrintRecord(r) + rest == WordBytes(r.hash) + TimeBytes(r.mtime) + WordBytes(|r.inputs|) + (Words(r.inputs) + rest);
    }
  }

  /** Where the fields of a record are. */
  lemma {:induction false} RecordLayout(r: Raw, i: nat)
    requires Fits(r)
    ensures ReadWord(PrintRecord(r)) == r.hash && ReadTime(PrintRecord(r)[8..]) == r.mtime
    ensures ReadWord(PrintRecord(r)[16..]) == |r.inputs|
    ensures i < |r.inputs| ==> ReadWord(PrintRecord(r)[24 + 8 * i..]) == r.inputs[i]
  {
    var b := PrintRecord(r);
    HeaderReadsBack(r, Words(r.inputs));
    assert b == WordBytes(r.hash) + TimeBytes(r.mtime) + WordBytes(|r.inputs|) + Words(r.inputs);
    if i < |r.inputs| {
      WordAt(r.inputs, i);
      assert b[24 + 8 * i..] == b[24..][8 * i..];
    }
  }

  lemma {:induction false} WordAt(ws: seq<Word>, i: nat)
    requires i < |ws|
    ensures ReadWord(Words(ws)[8 * i..]) == ws[i]
  {
    assert Words(ws) == WordBytes(ws[0]) + Words(ws[1..]);
    if i == 0 {
      WordRoundTrip(ws[0], Words(ws[1..]));
      assert Words(ws)[0..] == Words(ws);
    } else {
      WordAt(ws[1..], i - 1);
      assert Words(ws)[8 * i..] == Words(ws[1..])[8 * (i - 1)..];
    }
  }

  function PrintPath(p: Path): (b: seq<Byte>)
    ensures |b| == |p.text| + 1
  {
    var bytes: seq<Byte> := p.text;
    bytes + [0]
  }

  /** The characters before the first zero. */
  function ParseText(b: seq<Byte>): Option<seq<Char>>
  {
    if b == [] then None
    else if b[0] == 0 then Some([])
    else
      match ParseText(b[1..])
      case None => None
      case Some(text) => Some([b[0]] + text)
  }

  function ParsePath(b: seq<Byte>): Option<(Path, nat)>
  {
    match ParseText(b)
    case None => None
    case Some(text) => Some((Path(text), |text| + 1))
  }

  lemma {:induction false} ParsePrintedText(text: seq<Char>, rest: seq<Byte>)
    ensures ParseText(PrintPath(Path(text)) + rest) == Some(text)
  {
    if text != [] {
      ParsePrintedText(text[1..], rest);
      assert (PrintPath(Path(text)) + rest)[1..] == PrintPath(Path(text[1..])) + rest;
      assert text == [text[0]] + text[1..];
    }
  }

  predicate PathFits(p: Path)
  {
    |p.text| + 1 < WORD
  }

  lemma PathPrints(p: Path)
    requires PathFits(p)
    ensures Prints(ParsePath, Some(p), PrintPath(p))
  {
    forall rest: seq<Byte>
      ensures ParsePath(PrintPath(p) + rest) == Some((p, |PrintPath(p)|))
    {
      ParsePrintedText(p.text, rest);
    }
  }

  // ---- the two files ----

  /** Nothing is written for a record that was never completed. */
  function RecordPayload(x: Option<Raw>): seq<Byte>
    requires x.Some? ==> Fits(x.value)
  {
    if x.Some? then PrintRecord(x.value) else []
  }

  function RecordPayloads(xs: seq<Option<Raw>>): seq<seq<Byte>>
    requires forall i | 0 <= i < |xs| :: xs[i].Some? ==> Fits(xs[i].value)
  {
    seq(|xs|, i requires 0 <= i < |xs| => RecordPayload(xs[i]))
  }

  lemma RecordsPrint(xs: seq<Option<Raw>>)
    requires forall i | 0 <= i < |xs| :: xs[i].Some? ==> Fits(xs[i].value)
    ensures AllPrint(ParseRecord, xs, RecordPayloads(xs)) && Fit(RecordPayloads(xs))
  {
    forall i | 0 <= i < |xs|
      ensures Prints(ParseRecord, xs[i], RecordPayloads(xs)[i])
    {
      if xs[i].Some? { RecordPrints(xs[i].value); }
    }
    PayloadsFit(ParseRecord, xs, RecordPayloads(xs));
  }

  function Somes<T>(xs: seq<T>): seq<Option<T>>
  {
    seq(|xs|, i requires 0 <= i < |xs| => Some(xs[i]))
  }

  lemma {:induction false} PresentSomes<T>(xs: seq<T>)
    ensures Present(Somes(xs)) == xs
  {
    if xs != [] {
      PresentSomes(xs[1..]);
      assert Somes(xs)[1..] == Somes(xs[1..]);
    }
  }

  function PathPayloads(ps: seq<Path>): seq<seq<Byte>>
  {
    seq(|ps|, i requires 0 <= i < |ps| => PrintPath(ps[i]))
  }

  lemma PathsPrint(ps: seq<Path>)
    requires forall i | 0 <= i < |ps| :: PathFits(ps[i])
    ensures AllPrint(ParsePath, Somes(ps), PathPayloads(ps)) && Fit(PathPayloads(ps))
  {
    forall i | 0 <= i < |ps|
      ensures Prints(ParsePath, Somes(ps)[i], PathPayloads(ps)[i])
    {
      PathPrints(ps[i]);
    }
    PayloadsFit(ParsePath, Somes(ps), PathPayloads(ps));
  }

  /** The bytes of a commands file made of whole records. */
  function CommandsFile(xs: seq<Option<Raw>>): seq<Byte>
    requires forall i | 0 <= i < |xs| :: xs[i].Some? ==> Fits(xs[i].value)
  {
    RecordsPrint(xs);
    Stream(RecordPayloads(xs))
  }

  function FilesFile(ps: seq<Path>): seq<Byte>
    requires forall i | 0 <= i < |ps| :: PathFits(ps[i])
  {
    PathsPrint(ps);
    Stream(PathPayloads(ps))
  }

  lemma CommandsFileAppend(xs: seq<Option<Raw>>, x: Option<Raw>)
    requires forall i | 0 <= i < |xs| :: xs[i].Some? ==> Fits(xs[i].value)
    requires x.Some? ==> Fits(x.value)
    ensures |RecordPayload(x)| < WORD
    ensures CommandsFile(xs + [x]) == CommandsFile(xs) + Frame(RecordPayload(x))
  {
    RecordsPrint(xs);
    RecordsPrint(xs + [x]);
    assert RecordPayloads(xs + [x]) == RecordPayloads(xs) + [RecordPayload(x)];
    StreamAppend(RecordPayloads(xs), RecordPayload(x));
  }

  lemma FilesFileAppend(ps: seq<Path>, p: Path)
    requires forall i | 0 <= i < |ps| :: PathFits(ps[i])
    requires PathFits(p)
    ensures FilesFile(ps + [p]) == FilesFile(ps) + Frame(PrintPath(p))
  {
    PathsPrint(ps);
    PathsPrint(ps + [p]);
    assert PathPayloads(ps + [p]) == PathPayloads(ps) + [PrintPath(p)];
    StreamAppend(PathPayloads(ps), PrintPath(p));
  }

  lemma CommandsFileLoads(xs: seq<Option<Raw>>)
    requires forall i | 0 <= i < |xs| :: xs[i].Some? ==> Fits(xs[i].value)
    ensures Load(ParseRecord, CommandsFile(xs)) == Loaded(Present(xs), |CommandsFile(xs)|)
  {
    RecordsPrint(xs);
    LoadStream(ParseRecord, xs, RecordPayloads(xs));
  }

  lemma FilesFileLoads(ps: seq<Path>)
    requires forall i | 0 <= i < |ps| :: PathFits(ps[i])
    ensures Load(ParsePath, FilesFile(ps)) == Loaded(ps, |FilesFile(ps)|)
  {
    PathsPrint(ps);
    PresentSomes(ps);
    LoadStream(ParsePath, Somes(ps), PathPayloads(ps));
  }

  lemma CommandsFilePrefix(xs: seq<Option<Raw>>, k: nat, part: nat)
    requires forall i | 0 <= i < |xs| :: xs[i].Some? ==> Fits(xs[i].value)
    requires k < |xs| && part <= 8 + |RecordPayload(xs[k])|
    ensures |CommandsFile(xs[..k])| + part <= |CommandsFile(xs)|
    ensures CommandsFile(xs)[..|CommandsFile(xs[..k])| + part]
            == CommandsFile(xs[..k]) + Frame(RecordPayload(xs[k]))[..part]
  {
    RecordsPrint(xs);
    RecordsPrint(xs[..k]);
    PayloadsPrefix(xs, k);
    StreamPrefix(RecordPayloads(xs), k, part);
  }

  /** A commands file cut `part` bytes into record `k` loads as the records before it,
      is shortened to exactly those and so loads the same again; a cut inside the size
      of the record makes the load read past the end. */
  lemma CommandsFileCut(xs: seq<Option<Raw>>, k: nat, part: nat)
    requires forall i | 0 <= i < |xs| :: xs[i].Some? ==> Fits(xs[i].value)
    requires k < |xs| && part < 8 + |RecordPayload(xs[k])|
    ensures |CommandsFile(xs[..k])| + part <= |CommandsFile(xs)|
    ensures var whole, cut := |CommandsFile(xs[..k])|, |CommandsFile(xs[..k])| + part;
            && Load(ParseRecord, CommandsFile(xs)[..cut])
               == (if 0 < part < 8 then Overrun else Loaded(Present(xs[..k]), whole))
            && CommandsFile(xs)[..whole] == CommandsFile(xs[..k])
            && Load(ParseRecord, CommandsFile(xs[..k])) == Loaded(Present(xs[..k]), whole)
  {
    CommandsFilePrefix(xs, k, part);
    CommandsFilePrefix(xs, k, 0);
    CommandsFileLoads(xs[..k]);
    RecordsPrint(xs[..k]);
    LoadCut(ParseRecord, xs[..k], RecordPayloads(xs[..k]), RecordPayload(xs[k]), part);
  }

  lemma PayloadsPrefix(xs: seq<Option<Raw>>, k: nat)
    requires forall i | 0 <= i < |xs| :: xs[i].Some? ==> Fits(xs[i].value)
    requires k < |xs|
    ensures RecordPayloads(xs)[..k] == RecordPayloads(xs[..k]) && RecordPayloads(xs)[k] == RecordPayload(xs[k])
  {
  }
}
