/** The hand-written path language of valuesSources: reading by path and writing under a dotted key
    (internal/controller/sources/extractor.go). Strings are sequences of characters; every character the
    parser looks for is a single byte. setNestedField is modelled on an owned tree. */
module Paths {
  import opened Wrappers
  import opened Documents

  datatype Extraction = Found(value: Value) | NotFound | PathError(error: string)

  // ---- Strings ----

  predicate IsQuote(c: char) {
    c == '"' || c == '\''
  }

  function TrimDot(path: string): string {
    if path != "" && path[0] == '.' then path[1..] else path
  }

  function TrimQuotesLeft(s: string): string {
    if s != "" && IsQuote(s[0]) then TrimQuotesLeft(s[1..]) else s
  }

  function TrimQuotesRight(s: string): string {
    if s != "" && IsQuote(s[|s| - 1]) then TrimQuotesRight(s[..|s| - 1]) else s
  }

  function TrimQuotes(s: string): string {
    TrimQuotesRight(TrimQuotesLeft(s))
  }

  function IndexOf(s: string, c: char): (i: int)
    ensures -1 <= i < |s|
    ensures i == -1 <==> c !in s
    ensures i >= 0 ==> s[i] == c && c !in s[..i]
  {
    if s == "" then -1
    else if s[0] == c then 0
    else
      var i := IndexOf(s[1..], c);
      assert i >= 0 ==> s[..i + 1] == [s[0]] + s[1..][..i];
      if i == -1 then -1 else i + 1
  }

  predicate AllDigits(s: string) {
    forall i | 0 <= i < |s| :: '0' <= s[i] <= '9'
  }

  function DecimalValue(s: string): nat
    requires AllDigits(s)
  {
    if s == "" then 0 else 10 * DecimalValue(s[..|s| - 1]) + (s[|s| - 1] - '0') as nat
  }

  const MAX_INT := 0x7fff_ffff_ffff_ffff

  /** strconv.Atoi on a 64-bit platform: an optional sign, then decimal digits, within range. */
  function Atoi(s: string): Option<int> {
    var signed := s != "" && (s[0] == '+' || s[0] == '-');
    var digits := if signed then s[1..] else s;
    if digits == "" || !AllDigits(digits) then None
    else
      var value: int := DecimalValue(digits);
      var n := if signed && s[0] == '-' then -value else value;
      if -MAX_INT - 1 <= n <= MAX_INT then Some(n) else None
  }

  /** The text is the number: an optional sign and decimal digits, within 64 bits. */
  predicate Denotes(s: string, sign: string, digits: string, n: int) {
    && s == sign + digits && digits != "" && AllDigits(digits)
    && (sign == "" || sign == "+" || sign == "-")
    && n == (if sign == "-" then -(DecimalValue(digits) as int) else DecimalValue(digits))
    && -0x8000_0000_0000_0000 <= n <= 0x7fff_ffff_ffff_ffff
  }

  lemma AtoiDenotes(s: string, n: int) returns (sign: string, digits: string)
    requires Atoi(s) == Some(n)
    ensures Denotes(s, sign, digits, n)
  {
    if s[0] == '+' || s[0] == '-' {
      sign, digits := [s[0]], s[1..];
    } else {
      sign, digits := "", s;
    }
  }

  lemma DenotedIsRead(s: string, sign: string, digits: string, n: int)
    requires Denotes(s, sign, digits, n)
    ensures Atoi(s) == Some(n)
  {
    if sign == "" {
      assert s == digits && '0' <= digits[0] <= '9';
    } else {
      assert s[0] == sign[0] && s[1..] == digits;
    }
  }

  lemma AtoiIff(s: string, n: int)
    ensures Atoi(s) == Some(n) <==> exists sign, digits :: Denotes(s, sign, digits, n)
  {
    if Atoi(s) == Some(n) {
      var sign, digits := AtoiDenotes(s, n);
    } else if sign, digits :| Denotes(s, sign, digits, n) {
      DenotedIsRead(s, sign, digits, n);
    }
  }

  function Itoa(n: nat): (s: string)
    ensures s != "" && AllDigits(s)
  {
    (if n < 10 then "" else Itoa(n / 10)) + [(n % 10) as char + '0']
  }

  lemma {:induction false} DecimalItoa(n: nat)
    ensures DecimalValue(Itoa(n)) == n
  {
    var s := Itoa(n);
    assert s[..|s| - 1] == if n < 10 then "" else Itoa(n / 10);
    if n >= 10 {
      DecimalItoa(n / 10);
    }
  }

  lemma AtoiItoa(n: nat)
    requires n <= MAX_INT
    ensures Atoi(Itoa(n)) == Some(n)
  {
    DecimalItoa(n);
    assert '0' <= Itoa(n)[0] <= '9';
  }

  // ---- findClosingBracket ----

  datatype Scan = Scan(depth: int, quote: Option<char>)

  function ScanChar(s: Scan, c: char): Scan {
    if s.quote.Some? then if c == s.quote.value then s.(quote := None) else s
    else if IsQuote(c) then s.(quote := Some(c))
    else if c == '[' then s.(depth := s.depth + 1)
    else if c == ']' then s.(depth := s.depth - 1)
    else s
  }

  function Scanned(path: string): Scan {
    if path == "" then Scan(0, None) else ScanChar(Scanned(path[..|path| - 1]), path[|path| - 1])
  }

  /** A bracket outside quotes closes the outermost one here. */
  predicate ClosesAt(path: string, i: nat)
    requires i < |path|
  {
    Scanned(path[..i]).quote.None? && path[i] == ']' && Scanned(path[..i + 1]).depth == 0
  }

  method FindClosingBracket(path: string) returns (r: int)
    ensures r == -1 || (0 <= r < |path| && ClosesAt(path, r) && forall i | 0 <= i < r :: !ClosesAt(path, i))
    ensures r == -1 ==> forall i | 0 <= i < |path| :: !ClosesAt(path, i)
    ensures r == Closing(path, 0)
  {
    var depth, inString, stringChar := 0, false, '\0';
    for i := 0 to |path|
      invariant Scanned(path[..i]) == Scan(depth, if inString then Some(stringChar) else None)
      invariant forall k | 0 <= k < i :: !ClosesAt(path, k)
      invariant Closing(path, 0) == Closing(path, i)
    {
      assert path[..i + 1][..i] == path[..i];
      var c := path[i];
      if inString {
        if c == stringChar {
          inString := false;
        }
        continue;
      }
      match c {
        case '"' => inString, stringChar := true, c;
        case '\'' => inString, stringChar := true, c;
        case '[' => depth := depth + 1;
        case ']' =>
          depth := depth - 1;
          if depth == 0 {
            return i;
          }
        case _ =>
      }
    }
    return -1;
  }

  /** The first closing position from i on, or -1. */
  function Closing(path: string, i: nat): (r: int)
    requires i <= |path|
    ensures r == -1 || (i <= r < |path| && ClosesAt(path, r))
    decreases |path| - i
  {
    if i == |path| then -1 else if ClosesAt(path, i) then i else Closing(path, i + 1)
  }

  lemma {:induction false} ClosingIs(path: string, i: nat, end: nat)
    requires i <= end < |path| && ClosesAt(path, end) && forall k | i <= k < end :: !ClosesAt(path, k)
    ensures Closing(path, i) == end
    decreases end - i
  {
    if i < end {
      ClosingIs(path, i + 1, end);
    }
  }

  // ---- extractByPath ----

  datatype Head = Head(segment: string, rest: string) | Unclosed

  /** Split off the first segment of a path whose leading dot is gone. */
  function SplitHead(path: string): Head
    requires path != ""
  {
    if path[0] == '[' then
      var end := Closing(path, 0);
      if end <= 0 then Unclosed else Head(TrimQuotes(path[1..end]), path[end + 1..])
    else
      var dot, bracket := IndexOf(path, '.'), IndexOf(path, '[');
      if dot == -1 && bracket == -1 then Head(path, "")
      else if dot == -1 then Head(path[..bracket], path[bracket..])
      else if bracket == -1 then Head(path[..dot], path[dot..])
      else if dot < bracket then Head(path[..dot], path[dot..])
      else Head(path[..bracket], path[bracket..])
  }

  /** One step into a value by the text of a segment. */
  function Child(v: Value, segment: string): Extraction {
    match v
    case Obj(fields) => if segment in fields then Found(fields[segment]) else NotFound
    case List(items) =>
      (match Atoi(segment)
       case None => PathError("expected array index, got: " + segment)
       case Some(i) => if 0 <= i < |items| then Found(items[i]) else NotFound)
    case _ => NotFound
  }

  lemma RestIsShorter(path: string)
    requires TrimDot(path) != ""
    ensures SplitHead(TrimDot(path)).Head? ==> |SplitHead(TrimDot(path)).rest| < |path|
  {
  }

  /** Recursive descent as in the source; it terminates on every path. */
  function ExtractByPath(obj: Value, path: string): Extraction
    decreases |path|
  {
    var trimmed := TrimDot(path);
    if trimmed == "" then Found(obj)
    else
      match SplitHead(trimmed)
      case Unclosed => PathError("unclosed bracket in path")
      case Head(segment, rest) =>
        match Child(obj, segment)
        case NotFound => NotFound
        case PathError(e) => PathError(e)
        case Found(v) =>
          RestIsShorter(path);
          if rest == "" || rest == "." then Found(v) else ExtractByPath(v, rest)
  }

  // ---- Printing a path and walking it directly ----

  datatype Segment =
    | DotKey(key: string)
    | BracketKey(key: string, quote: char, dotted: bool)
    | Index(i: nat, dotted: bool)

  /** What the path language can express: dot keys without dots and opening brackets, and quoted keys that
      neither contain their quote nor begin or end with any quote. */
  predicate Expressible(s: Segment) {
    match s
    case DotKey(key) => key != "" && '.' !in key && '[' !in key
    case BracketKey(key, quote, _) =>
      IsQuote(quote) && quote !in key && (key != "" ==> !IsQuote(key[0]) && !IsQuote(key[|key| - 1]))
    case Index(i, _) => i <= MAX_INT
  }

  /** A segment without the dot before it. */
  function Bare(s: Segment): string {
    match s
    case DotKey(key) => key
    case BracketKey(key, quote, _) => "[" + ([quote] + key + [quote]) + "]"
    case Index(i, _) => "[" + Itoa(i) + "]"
  }

  function PrintSegment(s: Segment): string {
    (if s.DotKey? || s.dotted then "." else "") + Bare(s)
  }

  function Print(segments: seq<Segment>): string {
    if segments == [] then "" else PrintSegment(segments[0]) + Print(segments[1..])
  }

  function Name(s: Segment): string {
    if s.Index? then Itoa(s.i) else s.key
  }

  /** An object has a member of that name or not, a list has that item, not so many, or no such index; anything
      else has nothing inside. */
  function Enter(v: Value, s: Segment): Extraction {
    if v.Obj? then if Name(s) in v.fields then Found(v.fields[Name(s)]) else NotFound
    else if !v.List? then NotFound
    else
      var index := if s.Index? then Some(s.i as int) else Atoi(s.key);
      if index.None? then PathError("expected array index, got: " + s.key)
      else if 0 <= index.value < |v.items| then Found(v.items[index.value])
      else NotFound
  }

  function Walk(v: Value, segments: seq<Segment>): Extraction {
    if segments == [] then Found(v)
    else
      match Enter(v, segments[0])
      case Found(w) => Walk(w, segments[1..])
      case NotFound => NotFound
      case PathError(e) => PathError(e)
  }

  lemma NameReads(s: Segment)
    requires s.Index? && s.i <= MAX_INT
    ensures Atoi(Name(s)) == Some(s.i)
  {
    AtoiItoa(s.i);
  }

  lemma ItemAt(items: seq<Value>, segment: string, i: nat)
    requires Atoi(segment) == Some(i)
    ensures Child(List(items), segment) == if i < |items| then Found(items[i]) else NotFound
  {
  }

  lemma EnterIsChild(v: Value, s: Segment)
    requires Expressible(s)
    ensures Enter(v, s) == Child(v, Name(s))
  {
    if s.Index? {
      NameReads(s);
      if v.List? {
        ItemAt(v.items, Name(s), s.i);
      }
    } else {
      assert Name(s) == s.key;
    }
  }

  /** Text that starts a segment, or is empty. */
  predicate SegmentStart(rest: string) {
    rest == "" || rest[0] == '.' || rest[0] == '['
  }

  lemma DotKeyHead(key: string, rest: string)
    requires key != "" && '.' !in key && '[' !in key && SegmentStart(rest)
    ensures SplitHead(key + rest) == Head(key, rest)
  {
    var path := key + rest;
    assert forall i | 0 <= i < |key| :: path[i] == key[i];
    FirstAt(key, rest, '.');
    FirstAt(key, rest, '[');
  }

  lemma FirstAt(key: string, rest: string, c: char)
    requires c !in key
    ensures var i := IndexOf(key + rest, c);
            (i == -1 || |key| <= i) && (rest != "" && rest[0] == c ==> i == |key|)
  {
    var path := key + rest;
    var i := IndexOf(path, c);
    assert forall k | 0 <= k < |key| :: path[k] == key[k];
    forall k | 0 <= k < i
      ensures path[k] != c
    {
      assert path[..i][k] == path[k];
    }
    if rest != "" && rest[0] == c {
      assert path[|key|] == c;
    }
  }

  /** Characters without quotes and brackets leave a scan as it is. */
  lemma {:induction false} ScanPlain(before: string, middle: string)
    requires Scanned(before).quote.None?
    requires forall i | 0 <= i < |middle| :: !IsQuote(middle[i]) && middle[i] != '[' && middle[i] != ']'
    ensures Scanned(before + middle) == Scanned(before)
  {
    if middle != "" {
      var n := |middle| - 1;
      ScanPlain(before, middle[..n]);
      assert (before + middle)[..|before| + n] == before + middle[..n];
    } else {
      assert before + middle == before;
    }
  }

  /** Inside a string only its own quote matters. */
  lemma {:induction false} ScanQuoted(before: string, middle: string)
    requires Scanned(before).quote.Some? && Scanned(before).quote.value !in middle
    ensures Scanned(before + middle) == Scanned(before)
  {
    if middle != "" {
      var n := |middle| - 1;
      ScanQuoted(before, middle[..n]);
      assert (before + middle)[..|before| + n] == before + middle[..n];
      assert middle[n] in middle;
    } else {
      assert before + middle == before;
    }
  }

  lemma ScanNext(before: string, c: char)
    ensures Scanned(before + [c]) == ScanChar(Scanned(before), c)
  {
    assert (before + [c])[..|before|] == before;
  }

  /** "[" inner "]" closes at its end, if no shorter part of it does. */
  lemma BracketCloses(inner: string, path: string)
    requires |path| >= |inner| + 2 && path[..|inner| + 1] == "[" + inner && path[|inner| + 1] == ']'
    requires Scanned("[" + inner) == Scan(1, None)
    requires forall k | 0 < k <= |inner| :: !(Scanned(("[" + inner)[..k]).quote.None? && ("[" + inner)[k] == ']')
    ensures Closing(path, 0) == |inner| + 1
  {
    var open := "[" + inner;
    var end := |inner| + 1;
    assert path[..end + 1] == open + "]";
    ScanNext(open, ']');
    assert ClosesAt(path, end);
    forall k | 0 <= k < end
      ensures !ClosesAt(path, k)
    {
      OpenStays(open, path, k);
    }
    ClosingIs(path, 0, end);
  }

  /** Inside its open part a path does not close. */
  lemma OpenStays(open: string, path: string, k: nat)
    requires k < |open| <= |path| && path[..|open|] == open
    requires open[k] == ']' ==> Scanned(open[..k]).quote.Some?
    ensures !ClosesAt(path, k)
  {
    assert path[..k] == open[..k] && path[k] == open[k];
  }

  lemma BracketHead(inner: string, rest: string)
    requires Scanned("[" + inner) == Scan(1, None)
    requires forall k | 0 < k <= |inner| :: !(Scanned(("[" + inner)[..k]).quote.None? && ("[" + inner)[k] == ']')
    ensures SplitHead("[" + inner + "]" + rest) == Head(TrimQuotes(inner), rest)
  {
    var path := "[" + inner + "]" + rest;
    var end := |inner| + 1;
    assert path[..end] == "[" + inner && path[end] == ']';
    BracketCloses(inner, path);
    assert path[1..end] == inner && path[end + 1..] == rest;
  }

  lemma QuotedScan(key: string, quote: char)
    requires IsQuote(quote) && quote !in key
    ensures var inner := [quote] + key + [quote];
            && Scanned("[" + inner) == Scan(1, None)
            && forall k | 0 < k <= |inner| :: !(Scanned(("[" + inner)[..k]).quote.None? && ("[" + inner)[k] == ']')
  {
    var inner := [quote] + key + [quote];
    var open := "[" + inner;
    var start := "[" + [quote];
    ScanNext("", '[');
    assert "" + "[" == "[";
    ScanNext("[", quote);
    assert Scanned(start) == Scan(1, Some(quote));
    ScanQuoted(start, key);
    ScanNext(start + key, quote);
    assert open == start + key + [quote];
    forall k | 0 < k <= |inner|
      ensures !(Scanned(open[..k]).quote.None? && open[k] == ']')
    {
      if 2 <= k < |inner| {
        assert open[..k] == start + key[..k - 2];
        assert quote !in key[..k - 2];
        ScanQuoted(start, key[..k - 2]);
      }
    }
  }

  lemma PlainScan(inner: string)
    requires forall i | 0 <= i < |inner| :: !IsQuote(inner[i]) && inner[i] != '[' && inner[i] != ']'
    ensures Scanned("[" + inner) == Scan(1, None)
    ensures forall k | 0 < k <= |inner| :: ("[" + inner)[k] != ']'
  {
    ScanNext("", '[');
    assert "" + "[" == "[";
    ScanPlain("[", inner);
  }

  lemma TrimQuotedKey(key: string, quote: char)
    requires IsQuote(quote) && (key != "" ==> !IsQuote(key[0]) && !IsQuote(key[|key| - 1]))
    ensures TrimQuotes([quote] + key + [quote]) == key
  {
    var s := [quote] + key + [quote];
    assert s[1..] == key + [quote];
    if key == "" {
      assert s == [quote, quote] && s[1..] == [quote] && s[1..][1..] == [];
      assert TrimQuotesLeft(s[1..]) == TrimQuotesLeft([]);
      assert TrimQuotesLeft(s) == [];
    } else {
      assert TrimQuotesLeft(s) == key + [quote];
      assert (key + [quote])[..|key|] == key;
      assert TrimQuotesRight(key + [quote]) == TrimQuotesRight(key);
    }
  }

  lemma TrimPlain(s: string)
    requires s != "" && !IsQuote(s[0]) && !IsQuote(s[|s| - 1])
    ensures TrimQuotes(s) == s
  {
  }

  lemma Regroup(a: string, b: string, c: string)
    ensures (a + b) + c == a + (b + c)
  {
  }

  lemma TrimmedSegment(s: Segment, rest: string)
    requires Expressible(s)
    ensures TrimDot(PrintSegment(s) + rest) == Bare(s) + rest
  {
    Regroup(if s.DotKey? || s.dotted then "." else "", Bare(s), rest);
    if !s.DotKey? {
      assert Bare(s)[0] == '[' && (Bare(s) + rest)[0] == '[';
    }
  }

  lemma BareHead(s: Segment, rest: string)
    requires Expressible(s) && SegmentStart(rest)
    ensures Bare(s) + rest != "" && SplitHead(Bare(s) + rest) == Head(Name(s), rest)
  {
    match s
    case DotKey(key) => DotKeyHead(key, rest);
    case BracketKey(key, quote, _) =>
      QuotedScan(key, quote);
      BracketHead([quote] + key + [quote], rest);
      TrimQuotedKey(key, quote);
    case Index(i, _) =>
      var inner := Itoa(i);
      assert forall k | 0 <= k < |inner| :: '0' <= inner[k] <= '9';
      PlainScan(inner);
      BracketHead(inner, rest);
      TrimPlain(inner);
  }

  /** The parser takes exactly the printed segment off a printed path. */
  lemma PrintedHead(s: Segment, rest: string)
    requires Expressible(s) && SegmentStart(rest)
    ensures TrimDot(PrintSegment(s) + rest) != ""
    ensures SplitHead(TrimDot(PrintSegment(s) + rest)) == Head(Name(s), rest)
  {
    TrimmedSegment(s, rest);
    BareHead(s, rest);
  }

  lemma PrintStarts(segments: seq<Segment>)
    requires forall i | 0 <= i < |segments| :: Expressible(segments[i])
    ensures SegmentStart(Print(segments)) && Print(segments) != "."
    ensures Print(segments) == "" <==> segments == []
  {
    if segments != [] {
      assert |PrintSegment(segments[0])| >= 2;
    }
  }

  /** Printing any list of expressible segments and parsing it is walking the list. */
  lemma {:induction false} PrintedPathWalks(v: Value, segments: seq<Segment>)
    requires forall i | 0 <= i < |segments| :: Expressible(segments[i])
    ensures ExtractByPath(v, Print(segments)) == Walk(v, segments)
    decreases |segments|
  {
    if segments != [] {
      var s, rest := segments[0], segments[1..];
      PrintStarts(rest);
      PrintedHead(s, Print(rest));
      EnterIsChild(v, s);
      if Enter(v, s).Found? {
        PrintedPathWalks(Enter(v, s).value, rest);
      }
    }
  }

  /** A bracket that nothing closes is an error, whatever it is read from. */
  lemma UnclosedBracket(v: Value, path: string)
    requires TrimDot(path) != "" && TrimDot(path)[0] == '['
    requires forall i | 0 <= i < |TrimDot(path)| :: !ClosesAt(TrimDot(path), i)
    ensures ExtractByPath(v, path) == PathError("unclosed bracket in path")
  {
  }

  // ---- setNestedField ----

  function Split(path: string): (parts: seq<string>)
    ensures parts != []
    decreases |path|
  {
    var dot := IndexOf(path, '.');
    if dot == -1 then [path] else [path[..dot]] + Split(path[dot + 1..])
  }

  /** The tree as the loop leaves it, and whether it got to the end of the path. */
  datatype Write = Write(tree: Doc, ok: bool)

  /** Each turn first puts a map where nothing is, then descends, or gives up on something other than a map. */
  function WriteParts(d: Doc, parts: seq<string>, value: Value): Write
    requires parts != []
    decreases |parts|
  {
    var key := parts[0];
    if |parts| == 1 then Write(d[key := value], true)
    else
      var made := if key in d then d else d[key := Obj(map[])];
      if !made[key].Obj? then Write(made, false)
      else
        var below := WriteParts(made[key].fields, parts[1..], value);
        Write(made[key := Obj(below.tree)], below.ok)
  }

  function SetNestedField(d: Doc, path: string, value: Value): Write {
    WriteParts(d, Split(path), value)
  }

  /** The tree around the map at hand: the maps entered so far, each with the key taken, last innermost. */
  function Rebuilt(spine: seq<(Doc, string)>, w: Write): Write {
    if spine == [] then w
    else
      var (d, key) := spine[|spine| - 1];
      Rebuilt(spine[..|spine| - 1], Write(d[key := Obj(w.tree)], w.ok))
  }

  lemma RebuiltNext(spine: seq<(Doc, string)>, d: Doc, key: string, w: Write)
    ensures Rebuilt(spine + [(d, key)], w) == Rebuilt(spine, Write(d[key := Obj(w.tree)], w.ok))
  {
    assert (spine + [(d, key)])[..|spine|] == spine;
  }

  /** The loop, which walks down the tree and writes as it goes. */
  method SetNested(obj: Doc, path: string, value: Value) returns (written: Write)
    ensures written == SetNestedField(obj, path, value)
  {
    var parts := Split(path);
    var current, spine := obj, [];
    var i := 0;
    while i < |parts| - 1
      invariant 0 <= i < |parts|
      invariant Rebuilt(spine, WriteParts(current, parts[i..], value)) == SetNestedField(obj, path, value)
    {
      var part := parts[i];
      assert parts[i..][1..] == parts[i + 1..];
      if part !in current {
        current := current[part := Obj(map[])];
      }
      if !current[part].Obj? {
        return Rebuilt(spine, Write(current, false));
      }
      RebuiltNext(spine, current, part, WriteParts(current[part].fields, parts[i + 1..], value));
      spine := spine + [(current, part)];
      current := current[part].fields;
      i := i + 1;
    }
    return Rebuilt(spine, Write(current[parts[i] := value], true));
  }

  function ValueAt(d: Doc, p: Path): Option<Value>
    decreases |p|
  {
    if p == [] then Some(Obj(d))
    else if p[0] !in d then None
    else if |p| == 1 then Some(d[p[0]])
    else if d[p[0]].Obj? then ValueAt(d[p[0]].fields, p[1..])
    else None
  }

  predicate Unrelated(p: Path, q: Path) {
    p != [] && q != [] && (p[0] != q[0] || Unrelated(p[1..], q[1..]))
  }

  /** It fails exactly when a proper prefix of the path ends at something other than a map, and then
      nothing was written: the maps it makes on the way are never in its way. */
  lemma {:induction false} SetFailsIff(d: Doc, parts: seq<string>, value: Value)
    requires parts != []
    ensures !WriteParts(d, parts, value).ok <==> LeafAbove(d, parts)
    ensures !WriteParts(d, parts, value).ok ==> WriteParts(d, parts, value).tree == d
    decreases |parts|
  {
    if |parts| > 1 {
      if parts[0] !in d {
        SetFailsIff(map[], parts[1..], value);
      } else if d[parts[0]].Obj? {
        SetFailsIff(d[parts[0]].fields, parts[1..], value);
      }
    }
  }

  /** Otherwise the path reads back the value and every unrelated path is as before. */
  lemma {:induction false} SetReadsBack(d: Doc, parts: seq<string>, value: Value, q: Path)
    requires parts != [] && WriteParts(d, parts, value).ok
    ensures ValueAt(WriteParts(d, parts, value).tree, parts) == Some(value)
    ensures Unrelated(parts, q) ==> ValueAt(WriteParts(d, parts, value).tree, q) == ValueAt(d, q)
    decreases |parts|
  {
    if |parts| > 1 {
      var below: Doc := if parts[0] in d then d[parts[0]].fields else map[];
      SetReadsBack(below, parts[1..], value, if q != [] then q[1..] else []);
      if Unrelated(parts, q) && q[0] == parts[0] && parts[0] !in d {
        assert ValueAt(below, q[1..]) == None;
      }
    } else if Unrelated(parts, q) {
      assert parts[1..] == [] && !Unrelated([], q[1..]);
      assert q[0] != parts[0];
    }
  }

  // ---- Setting, then extracting ----

  function DotKeys(parts: seq<string>): (r: seq<Segment>)
    ensures |r| == |parts| && forall i | 0 <= i < |r| :: r[i] == DotKey(parts[i])
  {
    seq(|parts|, i requires 0 <= i < |parts| => DotKey(parts[i]))
  }

  /** No dots, and no brackets unless the path has one. */
  predicate PartOf(path: string, part: string) {
    '.' !in part && ('[' !in path ==> '[' !in part)
  }

  lemma PartOfRest(path: string, dot: nat, part: string)
    requires dot < |path| && PartOf(path[dot + 1..], part)
    ensures PartOf(path, part)
  {
    assert '[' !in path ==> '[' !in path[dot + 1..];
  }

  lemma {:induction false} SplitParts(path: string, i: nat)
    requires i < |Split(path)|
    ensures PartOf(path, Split(path)[i])
    decreases |path|
  {
    var dot := IndexOf(path, '.');
    if dot != -1 {
      if i == 0 {
        assert Split(path)[0] == path[..dot];
      } else {
        SplitParts(path[dot + 1..], i - 1);
        PartOfRest(path, dot, Split(path[dot + 1..])[i - 1]);
      }
    }
  }

  lemma JoinAtDot(path: string, dot: nat)
    requires dot < |path| && path[dot] == '.'
    ensures ("." + path[..dot]) + ("." + path[dot + 1..]) == "." + path
  {
    Regroup(".", path[..dot], "." + path[dot + 1..]);
    assert path[dot..] == "." + path[dot + 1..];
  }

  lemma {:induction false} SplitPrints(path: string)
    ensures Print(DotKeys(Split(path))) == "." + path
    decreases |path|
  {
    var dot := IndexOf(path, '.');
    if dot == -1 {
      assert DotKeys(Split(path))[1..] == [];
    } else {
      SplitPrints(path[dot + 1..]);
      PrintCons(path[..dot], Split(path[dot + 1..]));
      JoinAtDot(path, dot);
    }
  }

  lemma PrintCons(key: string, parts: seq<string>)
    ensures Print(DotKeys([key] + parts)) == ("." + key) + Print(DotKeys(parts))
  {
    assert DotKeys([key] + parts)[1..] == DotKeys(parts);
  }

  lemma {:induction false} WalkReads(d: Doc, parts: seq<string>, value: Value)
    requires parts != [] && ValueAt(d, parts) == Some(value)
    ensures Walk(Obj(d), DotKeys(parts)) == Found(value)
    decreases |parts|
  {
    assert DotKeys(parts)[1..] == DotKeys(parts[1..]);
    if |parts| > 1 {
      WalkReads(d[parts[0]].fields, parts[1..], value);
    }
  }

  /** A value stored under a dotted key without brackets and empty parts is found again by that path. */
  lemma SetThenExtract(d: Doc, path: string, value: Value)
    requires '[' !in path && "" !in Split(path) && SetNestedField(d, path, value).ok
    ensures ExtractByPath(Obj(SetNestedField(d, path, value).tree), "." + path) == Found(value)
  {
    var parts := Split(path);
    var after := SetNestedField(d, path, value).tree;
    SetReadsBack(d, parts, value, []);
    WalkReads(after, parts, value);
    SplitPrints(path);
    forall i | 0 <= i < |parts|
      ensures Expressible(DotKeys(parts)[i])
    {
      SplitParts(path, i);
      assert parts[i] in parts;
    }
    PrintedPathWalks(Obj(after), DotKeys(parts));
  }
}
