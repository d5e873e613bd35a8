/** Reading the dependencies a compiler writes as a make rule
    (process_deps_gnu, src/sw/builder/command.cpp:85-176). */
module DepFiles {
  predicate IsSpace(c: char)
  {
    c == ' ' || c == '\t' || c == '\n' || c == 11 as char || c == 12 as char || c == '\r'
  }

  /** The blank and the five control characters from tabulator to carriage return. */
  lemma SpaceCodes(c: char)
    ensures IsSpace(c) <==> c as int == 32 || 9 <= c as int <= 13
  {
  }

  predicate Ends(s: string)
  {
    s == "" || s[0] == '\0'
  }

  /** boost::replace_all(s, "\\ ", " "). */
  function ReplaceAll(s: string): string
  {
    if s == "" then ""
    else if |s| > 1 && s[0] == '\\' && s[1] == ' ' then " " + ReplaceAll(s[2..])
    else [s[0]] + ReplaceAll(s[1..])
  }

  /** A continuation that follows a name without a space belongs to no name. */
  function Strip(s: string): string
  {
    if |s| > 1 && s[|s| - 2] == '\\' && s[|s| - 1] == '\n' then s[..|s| - 2] else s
  }

  function Unescape(s: string): string
  {
    Strip(ReplaceAll(s))
  }

  // ---- the scanner as a function ----

  /** The names in a text, outside of a name. */
  function Names(s: string): seq<string>
    decreases |s|
  {
    if Ends(s) then []
    else if IsSpace(s[0]) || s[0] == '\\' then Names(s[1..])
    else InName([s[0]], s[1..])
  }

  /** The names in a text, inside a name that begins with `name`.  A name the text ends
      in is not a name. */
  function InName(name: string, s: string): seq<string>
    requires name != ""
    decreases |s|
  {
    if Ends(s) then []
    else if IsSpace(s[0]) && name[|name| - 1] != '\\' then [Unescape(name)] + Names(s[1..])
    else InName(name + [s[0]], s[1..])
  }

  /** A zero character ends the text. */
  lemma {:induction false} ZeroEndsText(s: string, rest: string)
    ensures Names(s + ['\0'] + rest) == Names(s)
    ensures forall name: string | name != "" :: InName(name, s + ['\0'] + rest) == InName(name, s)
    decreases |s|
  {
    var all := s + ['\0'] + rest;
    if s != "" {
      assert all[0] == s[0] && all[1..] == s[1..] + ['\0'] + rest;
      ZeroEndsText(s[1..], rest);
    }
  }

  /** Where ": " is first found in a text; its length where it is not. */
  function Find(s: string): (n: nat)
    ensures n <= |s|
  {
    if s == "" then 0 else if |s| > 1 && s[0] == ':' && s[1] == ' ' then 0 else 1 + Find(s[1..])
  }

  /** substr(find(": ") + 1), where a find that fails starts from the beginning. */
  function WithoutTarget(s: string): string
  {
    if Find(s) == |s| then s else s[Find(s) + 1..]
  }

  datatype State = EMPTY | FILE

  /** The names still to come at `p`, in a name that begins at `begin` or in none. */
  function Ahead(state: State, f: string, begin: nat, p: nat): seq<string>
    requires p <= |f| && (state == FILE ==> begin < p)
  {
    match state
    case EMPTY => Names(f[p..])
    case FILE => InName(f[begin..p], f[p..])
  }

  lemma AheadSteps(state: State, f: string, begin: nat, p: nat)
    requires p < |f| && f[p] != '\0' && (state == FILE ==> begin < p)
    ensures Ahead(state, f, begin, p)
            == match state
               case EMPTY => if IsSpace(f[p]) || f[p] == '\\' then Ahead(EMPTY, f, begin, p + 1) else Ahead(FILE, f, p, p + 1)
               case FILE => if IsSpace(f[p]) && f[p - 1] != '\\' then [Unescape(f[begin..p])] + Ahead(EMPTY, f, begin, p + 1)
                            else Ahead(FILE, f, begin, p + 1)
  {
    assert f[p..][1..] == f[p + 1..];
    assert f[p..p + 1] == [f[p]];
    if state == FILE { assert f[begin..p + 1] == f[begin..p] + [f[p]]; }
  }

  /** The scanner as it runs; the set the source returns has these elements. */
  method ProcessDepsGnu(text: string) returns (files: seq<string>)
    ensures files == Names(WithoutTarget(text))
  {
    var f := WithoutTarget(text);
    files := [];
    var state, p, begin := EMPTY, 0, 0;
    assert f[0..] == f;
    while p < |f| && f[p] != '\0'
      decreases |f| - p
      invariant begin <= p <= |f| && (state == FILE ==> begin < p)
      invariant Names(f) == files + Ahead(state, f, begin, p)
    {
      AheadSteps(state, f, begin, p);
      match state {
        case EMPTY =>
          if !IsSpace(f[p]) && f[p] != '\\' {
            state := FILE;
            begin := p;
          }
        case FILE =>
          if IsSpace(f[p]) && f[p - 1] != '\\' {
            files := files + [Unescape(f[begin..p])];
            state := EMPTY;
          }
      }
      p := p + 1;
    }
    assert files + [] == files;
  }

  // ---- what a compiler writes ----

  /** No backslash and no white space but blanks, which are not at the beginning. */
  predicate IsName(n: string)
  {
    n != "" && n[0] != ' ' && IsNamePart(n)
  }

  predicate IsNamePart(n: string)
  {
    forall i | 0 <= i < |n| :: n[i] != '\\' && n[i] != '\0' && (IsSpace(n[i]) ==> n[i] == ' ')
  }

  function EscapeChar(c: char): string
  {
    if c == ' ' then "\\ " else [c]
  }

  function Escape(n: string): string
  {
    if n == "" then "" else EscapeChar(n[0]) + Escape(n[1..])
  }

  predicate IsFiller(s: string)
  {
    forall i | 0 <= i < |s| :: IsSpace(s[i]) || s[i] == '\\'
  }

  /** What may stand after a name: white space, or a backslash, a newline and white
      space; then any white space and backslashes. */
  predicate IsSeparator(s: string)
  {
    || (s != "" && IsSpace(s[0]) && IsFiller(s[1..]))
    || (|s| > 2 && s[0] == '\\' && s[1] == '\n' && IsSpace(s[2]) && IsFiller(s[3..]))
  }

  /** Every name with the separator after it. */
  function Printed(names: seq<string>, separators: seq<string>): string
    requires |names| == |separators|
  {
    if names == [] then "" else Escape(names[0]) + separators[0] + Printed(names[1..], separators[1..])
  }

  // ---- reading it back ----

  lemma Regroup<T>(a: seq<T>, b: seq<T>, c: seq<T>)
    ensures a + b + c == a + (b + c)
  {
  }

  lemma ReplaceOne(c: char, s: string)
    requires c != '\\'
    ensures ReplaceAll(EscapeChar(c) + s) == [c] + ReplaceAll(s)
  {
    assert ([c] + s)[1..] == s && ("\\ " + s)[2..] == s;
  }

  lemma {:induction false} ReplaceEscaped(n: string, s: string)
    requires IsNamePart(n)
    ensures ReplaceAll(Escape(n) + s) == n + ReplaceAll(s)
  {
    if n == "" {
      assert Escape(n) + s == s;
    } else {
      ReplaceEscaped(n[1..], s);
      ReplaceOne(n[0], Escape(n[1..]) + s);
      Regroup(EscapeChar(n[0]), Escape(n[1..]), s);
      Regroup([n[0]], n[1..], ReplaceAll(s));
      assert n == [n[0]] + n[1..];
    }
  }

  lemma UnescapeEscaped(n: string)
    requires IsName(n)
    ensures Unescape(Escape(n)) == n && Unescape(Escape(n) + ['\\', '\n']) == n
  {
    ReplaceEscaped(n, "");
    assert Escape(n) + "" == Escape(n) && n + "" == n;
    ReplaceEscaped(n, ['\\', '\n']);
    assert ['\\', '\n'][1..] == ['\n'];
    assert ReplaceAll(['\\', '\n']) == ['\\'] + ReplaceAll(['\n']);
    assert (n + ['\\', '\n'])[..|n|] == n;
  }

  lemma TakeOne(name: string, c: char, s: string)
    requires name != "" && IsNamePart([c])
    ensures InName(name, EscapeChar(c) + s) == InName(name + EscapeChar(c), s)
  {
    assert [c][0] == c;
    if c == ' ' {
      var all := "\\ " + s;
      assert all[1..] == [' '] + s && all[1..][1..] == s;
      assert name + ['\\'] + [' '] == name + "\\ ";
    } else {
      assert ([c] + s)[1..] == s;
    }
  }

  /** Inside a name, the scanner takes escaped text whole. */
  lemma {:induction false} TakeEscaped(name: string, n: string, s: string)
    requires name != "" && IsNamePart(n)
    ensures InName(name, Escape(n) + s) == InName(name + Escape(n), s)
    decreases |n|
  {
    if n == "" {
      assert Escape(n) + s == s && name + Escape(n) == name;
    } else {
      var e := EscapeChar(n[0]);
      TakeOne(name, n[0], Escape(n[1..]) + s);
      TakeEscaped(name + e, n[1..], s);
      Regroup(e, Escape(n[1..]), s);
      Regroup(name, e, Escape(n[1..]));
    }
  }

  lemma {:induction false} SkipFiller(s: string, rest: string)
    requires IsFiller(s)
    ensures Names(s + rest) == Names(rest)
  {
    if s == "" {
      assert s + rest == rest;
    } else {
      assert (s + rest)[1..] == s[1..] + rest;
      SkipFiller(s[1..], rest);
    }
  }

  lemma {:induction false} EscapeEndsWell(n: string)
    requires n != "" && IsNamePart(n)
    ensures Escape(n) != "" && Escape(n)[|Escape(n)| - 1] != '\\'
  {
    if |n| > 1 {
      EscapeEndsWell(n[1..]);
    }
  }

  lemma EndAtSpace(name: string, c: char, filler: string, rest: string)
    requires name != "" && name[|name| - 1] != '\\' && IsSpace(c) && IsFiller(filler)
    ensures InName(name, [c] + filler + rest) == [Unescape(name)] + Names(rest)
  {
    assert ([c] + filler + rest)[1..] == filler + rest;
    SkipFiller(filler, rest);
  }

  lemma TakeContinuation(name: string, s: string)
    requires name != ""
    ensures InName(name, ['\\', '\n'] + s) == InName(name + ['\\', '\n'], s)
  {
    var all := ['\\', '\n'] + s;
    assert all[1..] == ['\n'] + s && all[1..][1..] == s;
    assert name + ['\\'] + ['\n'] == name + ['\\', '\n'];
  }

  /** After a whole name, a separator ends it. */
  lemma EndOfName(name: string, separator: string, rest: string)
    requires name != "" && name[|name| - 1] != '\\' && IsSeparator(separator)
    ensures InName(name, separator + rest)
            == [Unescape(if IsSpace(separator[0]) then name else name + ['\\', '\n'])] + Names(rest)
  {
    if IsSpace(separator[0]) {
      assert separator == [separator[0]] + separator[1..];
      EndAtSpace(name, separator[0], separator[1..], rest);
    } else {
      var tail := [separator[2]] + separator[3..] + rest;
      assert separator + rest == ['\\', '\n'] + tail;
      TakeContinuation(name, tail);
      EndAtSpace(name + ['\\', '\n'], separator[2], separator[3..], rest);
    }
  }

  lemma StartName(n: string, s: string)
    requires IsName(n)
    ensures Names(Escape(n) + s) == InName(Escape(n), s)
  {
    var tail := Escape(n[1..]) + s;
    assert Escape(n) == [n[0]] + Escape(n[1..]);
    assert Escape(n) + s == [n[0]] + tail;
    assert ([n[0]] + tail)[1..] == tail;
    TakeEscaped([n[0]], n[1..], s);
  }

  lemma ReadName(n: string, separator: string, rest: string)
    requires IsName(n) && IsSeparator(separator)
    ensures Names(Escape(n) + (separator + rest)) == [n] + Names(rest)
  {
    StartName(n, separator + rest);
    EscapeEndsWell(n);
    EndOfName(Escape(n), separator, rest);
    UnescapeEscaped(n);
  }

  lemma Associative<T>(a: seq<T>, b: seq<T>, c: seq<T>, d: seq<T>)
    ensures a + b + c + d == a + (b + (c + d))
  {
  }

  lemma {:induction false} ReadNames(names: seq<string>, separators: seq<string>, rest: string)
    requires |names| == |separators|
    requires forall i | 0 <= i < |names| :: IsName(names[i]) && IsSeparator(separators[i])
    ensures Names(Printed(names, separators) + rest) == names + Names(rest)
  {
    if names == [] {
      assert Printed(names, separators) + rest == rest;
    } else {
      var more := Printed(names[1..], separators[1..]) + rest;
      ReadNames(names[1..], separators[1..], rest);
      ReadName(names[0], separators[0], more);
      Associative(Escape(names[0]), separators[0], Printed(names[1..], separators[1..]), rest);
      assert names == [names[0]] + names[1..];
      Associative([names[0]], [], names[1..], Names(rest));
      assert [names[0]] + [] == [names[0]] && [] + (names[1..] + Names(rest)) == names[1..] + Names(rest);
    }
  }

  /** No colon with a blank behind it. */
  predicate NoColonBlank(s: string)
  {
    forall i | 0 <= i < |s| - 1 :: !(s[i] == ':' && s[i + 1] == ' ')
  }

  lemma {:induction false} FindIsFirst(s: string)
    ensures Find(s) < |s| ==> Find(s) + 1 < |s| && s[Find(s)] == ':' && s[Find(s) + 1] == ' '
    ensures forall i | 0 <= i < Find(s) && i + 1 < |s| :: !(s[i] == ':' && s[i + 1] == ' ')
  {
    if s != "" && !(|s| > 1 && s[0] == ':' && s[1] == ' ') {
      FindIsFirst(s[1..]);
      forall i | 0 <= i < Find(s) && i + 1 < |s|
        ensures !(s[i] == ':' && s[i + 1] == ' ')
      {
        if i > 0 { assert s[1..][i - 1] == s[i] && s[1..][i] == s[i + 1]; }
      }
    }
  }

  lemma NothingToFind(s: string)
    ensures Find(s) == |s| <==> NoColonBlank(s)
  {
    FindIsFirst(s);
  }

  /** A text without a target is scanned whole. */
  lemma NoTargetIsCut(s: string)
    requires NoColonBlank(s)
    ensures WithoutTarget(s) == s
  {
    NothingToFind(s);
  }

  lemma {:induction false} FindTarget(target: string, s: string)
    requires Find(target) == |target|
    ensures Find(target + ": " + s) == |target|
  {
    var all := target + ": " + s;
    if target == "" {
      assert all[0] == ':' && all[1] == ' ';
    } else {
      assert all[1..] == target[1..] + ": " + s;
      FindTarget(target[1..], s);
    }
  }

  lemma AfterColon(target: string, s: string)
    ensures |target + ": " + s| == |target| + 2 + |s|
    ensures (target + ": " + s)[|target| + 1..] == " " + s
  {
  }

  lemma TargetIsCut(target: string, s: string)
    requires Find(target) == |target|
    ensures WithoutTarget(target + ": " + s) == " " + s
  {
    AfterColon(target, s);
    FindTarget(target, s);
  }

  /** A rule with any separators between and after its names gives back the names.  The
      target may have colons in it, as that of a drive. */
  lemma RoundTrip(target: string, lead: string, names: seq<string>, separators: seq<string>)
    requires NoColonBlank(target) && IsFiller(lead) && |names| == |separators|
    requires forall i | 0 <= i < |names| :: IsName(names[i]) && IsSeparator(separators[i])
    ensures Names(WithoutTarget(target + ": " + (lead + Printed(names, separators)))) == names
  {
    NothingToFind(target);
    var s := Printed(names, separators);
    TargetIsCut(target, lead + s);
    Regroup(" ", lead, s);
    SkipFiller(" " + lead, s);
    ReadNames(names, separators, "");
    assert s + "" == s && names + [] == names;
  }

  // ---- what follows the last name ----

  lemma ReplacedIs(x: string)
    ensures ReplaceAll(x) == "" <==> x == ""
    ensures ReplaceAll(x) == ['\\', '\n'] ==> x == ['\\', '\n']
  {
    if ReplaceAll(x) == ['\\', '\n'] {
      var rest := ReplaceAll(x[1..]);
      assert ReplaceAll(x)[0] == '\\';
      assert ReplaceAll(x) == [x[0]] + rest;
      assert ([x[0]] + rest)[1..] == rest && ReplaceAll(x)[1..] == ['\n'];
      assert rest[0] == '\n';
      assert rest == [x[1..][0]] + ReplaceAll(x[1..][1..]);
      assert |ReplaceAll(x[1..][1..])| == 0;
    }
  }

  /** Only nothing and a continuation vanish behind a name. */
  lemma VanishesBehindName(n: string, x: string)
    requires IsName(n) && Unescape(Escape(n) + x) == n
    ensures x == "" || x == ['\\', '\n']
  {
    var all := n + ReplaceAll(x);
    ReplaceEscaped(n, x);
    ReplacedIs(x);
    assert all[|n|..] == ReplaceAll(x);
    if |all| != |n| {
      assert |all| == |n| + 2 && all[|n|..] == ['\\', '\n'];
    }
  }

  /** Where the name that has taken `x` so far ends, if it ends as `n`. */
  lemma {:induction false} EndsAsName(n: string, x: string, end: string) returns (j: nat)
    requires IsName(n) && IsFiller(end) && Escape(n) + x != "" && InName(Escape(n) + x, end) == [n]
    ensures j < |end| && IsSpace(end[j]) && (x + end[..j] == "" || x + end[..j] == ['\\', '\n'])
    decreases |end|
  {
    var name := Escape(n) + x;
    if IsSpace(end[0]) && name[|name| - 1] != '\\' {
      SkipFiller(end[1..], "");
      assert end[1..] + "" == end[1..];
      assert InName(name, end)[0] == Unescape(name);
      VanishesBehindName(n, x);
      j := 0;
      assert x + end[..j] == x;
    } else {
      Regroup(Escape(n), x, [end[0]]);
      j := EndsAsName(n, x + [end[0]], end[1..]);
      assert x + end[..j + 1] == x + [end[0]] + end[1..][..j];
      j := j + 1;
    }
  }

  lemma LastNameAlone(last: string, end: string)
    requires IsName(last) && IsFiller(end)
    ensures Names(Escape(last) + end) == [last] <==> IsSeparator(end)
  {
    if IsSeparator(end) {
      ReadName(last, end, "");
      assert end + "" == end && [last] + [] == [last];
    }
    StartName(last, end);
    EscapeEndsWell(last);
    assert Escape(last) + "" == Escape(last);
    if InName(Escape(last), end) == [last] {
      var j := EndsAsName(last, "", end);
      assert "" + end[..j] == end[..j];
      assert j > 0 ==> end[..j][0] == end[0] && end[..j][1] == end[1];
    }
  }

  /** Behind the last name white space and backslashes may be left out only so far: it is
      read back exactly if what follows it is a separator. */
  lemma LastNameIff(names: seq<string>, separators: seq<string>, last: string, end: string)
    requires |names| == |separators| && IsName(last) && IsFiller(end)
    requires forall i | 0 <= i < |names| :: IsName(names[i]) && IsSeparator(separators[i])
    ensures Names(Printed(names, separators) + (Escape(last) + end)) == names + [last] <==> IsSeparator(end)
  {
    var found := Names(Escape(last) + end);
    ReadNames(names, separators, Escape(last) + end);
    LastNameAlone(last, end);
    assert (names + found)[|names|..] == found && (names + [last])[|names|..] == [last];
  }

  /** A last name that nothing follows is lost. */
  lemma LastNameIsLost(names: seq<string>, separators: seq<string>, last: string)
    requires |names| == |separators| && IsName(last)
    requires forall i | 0 <= i < |names| :: IsName(names[i]) && IsSeparator(separators[i])
    ensures Names(Printed(names, separators) + Escape(last)) == names
  {
    ReadNames(names, separators, Escape(last));
    StartName(last, "");
    assert Escape(last) + "" == Escape(last) && names + [] == names;
  }
}
