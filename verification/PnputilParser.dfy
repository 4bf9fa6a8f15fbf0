/** gui/OpenWinBlue/Services/PnputilParser.cs: reads pnputil's localized listings by value
    only, one block of values per blank-line-separated paragraph. */
module PnputilParser {
  import opened ByteTypes

  // ---- Lines -------------------------------------------------------------------------

  /** char.IsWhiteSpace. */
  predicate IsWhiteSpace(c: char) {
    || '\t' <= c <= '\r' || c == ' ' || c as int in {0x85, 0xA0, 0x1680, 0x2028, 0x2029, 0x202F, 0x205F, 0x3000}
    || 0x2000 <= c as int <= 0x200A
  }

  /** The 25 characters .NET counts as white space. */
  lemma WhiteSpaceTable(c: char)
    ensures IsWhiteSpace(c) ==
      (c as int in {0x09, 0x0A, 0x0B, 0x0C, 0x0D, 0x20, 0x85, 0xA0, 0x1680, 0x2000, 0x2001, 0x2002, 0x2003, 0x2004,
                    0x2005, 0x2006, 0x2007, 0x2008, 0x2009, 0x200A, 0x2028, 0x2029, 0x202F, 0x205F, 0x3000})
  {}

  function TrimStart(s: string): string {
    if s != [] && IsWhiteSpace(s[0]) then TrimStart(s[1..]) else s
  }

  function TrimEnd(s: string): string {
    if s != [] && IsWhiteSpace(s[|s| - 1]) then TrimEnd(s[..|s| - 1]) else s
  }

  function Trim(s: string): string {
    TrimEnd(TrimStart(s))
  }

  /** Trimming takes all white space off both ends and nothing else. */
  lemma TrimExactly(s: string) returns (front: string, back: string)
    ensures s == front + Trim(s) + back
    ensures (forall c <- front :: IsWhiteSpace(c)) && (forall c <- back :: IsWhiteSpace(c))
    ensures Trim(s) != [] ==> !IsWhiteSpace(Trim(s)[0]) && !IsWhiteSpace(Trim(s)[|Trim(s)| - 1])
  {
    hide IsWhiteSpace;
    front := TrimStartCut(s);
    back := TrimEndCut(TrimStart(s));
  }

  lemma {:induction false} TrimStartCut(s: string) returns (front: string)
    ensures s == front + TrimStart(s) && forall c <- front :: IsWhiteSpace(c)
    ensures TrimStart(s) != [] ==> !IsWhiteSpace(TrimStart(s)[0])
  {
    hide IsWhiteSpace;
    front := [];
    if s != [] && IsWhiteSpace(s[0]) {
      var more := TrimStartCut(s[1..]);
      front := [s[0]] + more;
    }
  }

  lemma {:induction false} TrimEndCut(s: string) returns (back: string)
    ensures s == TrimEnd(s) + back && forall c <- back :: IsWhiteSpace(c)
    ensures TrimEnd(s) != [] ==> !IsWhiteSpace(TrimEnd(s)[|TrimEnd(s)| - 1])
  {
    hide IsWhiteSpace;
    back := [];
    if s != [] && IsWhiteSpace(s[|s| - 1]) {
      var more := TrimEndCut(s[..|s| - 1]);
      back := more + [s[|s| - 1]];
    }
  }

  predicate IsBlank(line: string) {
    forall c <- line :: IsWhiteSpace(c)
  }

  /** The index of the first colon, or the length. */
  function ColonAt(line: string): (i: nat)
    ensures i <= |line|
    ensures forall j | 0 <= j < i :: line[j] != ':'
    ensures i < |line| ==> line[i] == ':'
  {
    if line == [] || line[0] == ':' then 0 else 1 + ColonAt(line[1..])
  }

  function ValueOf(line: string): Option<string> {
    if ColonAt(line) == |line| then None
    else
      var value := Trim(line[ColonAt(line) + 1..]);
      if value == [] then None else Some(value)
  }

  /** output.Split('\n'): always at least one line. */
  function Lines(s: string): (ls: seq<string>)
    ensures ls != []
  {
    if s == [] then [[]]
    else if s[0] == '\n' then [[]] + Lines(s[1..])
    else
      var rest := Lines(s[1..]);
      [[s[0]] + rest[0]] + rest[1..]
  }

  // ---- Blocks --------------------------------------------------------------------------

  function Closed(block: seq<string>): seq<seq<string>> {
    if block == [] then [] else [block]
  }

  function Kept(line: string): seq<string> {
    match ValueOf(line) case Some(v) => [v] case None => []
  }

  /** The blocks of these lines, a block being already under way. */
  function Blocks(lines: seq<string>, block: seq<string>): seq<seq<string>>
    decreases |lines|
  {
    if lines == [] then Closed(block)
    else if IsBlank(lines[0]) then Closed(block) + Blocks(lines[1..], [])
    else Blocks(lines[1..], block + Kept(lines[0]))
  }

  function BlocksOf(output: string): seq<seq<string>> {
    Blocks(Lines(output), [])
  }

  method SplitBlocks(output: string) returns (blocks: seq<seq<string>>)
    ensures blocks == BlocksOf(output)
  {
    hide Lines, ValueOf, IsBlank;
    var lines := Lines(output);
    blocks := [];
    var block := [];
    var i := 0;
    while i < |lines|
      invariant 0 <= i <= |lines|
      invariant blocks + Blocks(lines[i..], block) == BlocksOf(output)
    {
      var line := lines[i];
      assert lines[i..][1..] == lines[i + 1..];
      if IsBlank(line) {
        var rest := Blocks(lines[i + 1..], []);
        assert blocks + (Closed(block) + rest) == (blocks + Closed(block)) + rest;
        if block != [] {
          blocks := blocks + [block];
        }
        block := [];
      } else {
        var value := ValueOf(line);
        assert block + Kept(line) == if value.Some? then block + [value.value] else block;
        if value.Some? {
          block := block + [value.value];
        }
      }
      i := i + 1;
    }
    if block != [] {
      blocks := blocks + [block];
    }
  }

  // ---- What a line contributes -----------------------------------------------------------

  /** Two lines that separate, or contribute, alike. */
  predicate SameMeaning(a: string, b: string) {
    IsBlank(a) == IsBlank(b) && ValueOf(a) == ValueOf(b)
  }

  lemma {:induction false} SameMeaningSameBlocks(ls: seq<string>, ms: seq<string>, block: seq<string>)
    requires |ls| == |ms| && forall i | 0 <= i < |ls| :: SameMeaning(ls[i], ms[i])
    ensures Blocks(ls, block) == Blocks(ms, block)
    decreases |ls|
  {
    hide ValueOf, IsBlank;
    if ls != [] {
      assert SameMeaning(ls[0], ms[0]);
      forall i | 0 <= i < |ls| - 1
        ensures SameMeaning(ls[1..][i], ms[1..][i])
      {
        assert SameMeaning(ls[i + 1], ms[i + 1]);
      }
      if IsBlank(ls[0]) {
        SameMeaningSameBlocks(ls[1..], ms[1..], []);
      } else {
        SameMeaningSameBlocks(ls[1..], ms[1..], block + Kept(ls[0]));
      }
    }
  }

  lemma {:induction false} TrimStartAppend(s: string, c: char)
    requires IsWhiteSpace(c)
    ensures Trim(s + [c]) == Trim(s)
  {
    if s == [] {
      assert s + [c] == [c] && [c][1..] == [];
    } else if IsWhiteSpace(s[0]) {
      assert (s + [c])[1..] == s[1..] + [c];
      TrimStartAppend(s[1..], c);
    } else {
      assert (s + [c])[..|s|] == s;
    }
  }

  /** A trailing carriage return changes nothing. */
  lemma CarriageReturnIgnored(line: string)
    ensures SameMeaning(line, line + "\r")
  {
    hide TrimStart, TrimEnd;
    var longer := line + "\r";
    assert forall c :: c in longer <==> c in line || c == '\r';
    FirstColon(line, "\r");
    if ColonAt(line) < |line| {
      assert longer[ColonAt(line) + 1..] == line[ColonAt(line) + 1..] + "\r";
      TrimStartAppend(line[ColonAt(line) + 1..], '\r');
    }
  }

  lemma {:induction false} FirstColon(line: string, rest: string)
    requires ':' !in rest
    ensures ColonAt(line + rest) == if ColonAt(line) < |line| then ColonAt(line) else |line + rest|
  {
    if line == [] {
      assert line + rest == rest;
      assert ColonAt(rest) == |rest|;
    } else {
      FirstColon(line[1..], rest);
      assert (line + rest)[1..] == line[1..] + rest;
    }
  }

  // ---- Line ends -----------------------------------------------------------------------------

  function ToCrlf(s: string): string {
    if s == [] then [] else (if s[0] == '\n' then "\r\n" else [s[0]]) + ToCrlf(s[1..])
  }

  /** Every line but the last gains a carriage return. */
  function WithCr(ls: seq<string>): (ms: seq<string>)
    ensures |ms| == |ls|
  {
    seq(|ls|, i requires 0 <= i < |ls| => if i < |ls| - 1 then ls[i] + "\r" else ls[i])
  }

  lemma WithCrCons(line: string, ls: seq<string>)
    requires ls != []
    ensures WithCr([line] + ls) == [line + "\r"] + WithCr(ls)
  {}

  lemma WithCrLonger(c: char, ls: seq<string>)
    requires ls != []
    ensures WithCr([[c] + ls[0]] + ls[1..]) == [[c] + WithCr(ls)[0]] + WithCr(ls)[1..]
  {
    assert ([c] + ls[0]) + "\r" == [c] + (ls[0] + "\r");
  }

  lemma {:induction false} LinesOfCrlf(s: string)
    ensures Lines(ToCrlf(s)) == WithCr(Lines(s))
  {
    if s == [] {
    } else {
      hide WithCr;
      var t := ToCrlf(s[1..]);
      LinesOfCrlf(s[1..]);
      if s[0] == '\n' {
        var u := ['\n'] + t;
        assert u[1..] == t;
        assert Lines(u) == [[]] + Lines(t);
        assert ToCrlf(s) == ['\r'] + u;
        assert (['\r'] + u)[1..] == u;
        assert Lines(u)[1..] == Lines(t) && Lines(u)[0] == [];
        assert Lines(['\r'] + u) == [['\r'] + []] + Lines(t);
        WithCrCons([], Lines(s[1..]));
        assert ['\r'] + [] == [] + "\r";
        assert Lines(s) == [[]] + Lines(s[1..]);
      } else {
        assert ToCrlf(s)[1..] == t;
        WithCrLonger(s[0], Lines(s[1..]));
      }
    }
  }

  /** For every output, turning LF line ends into CRLF leaves the blocks as they are. */
  lemma CrlfInvariant(output: string)
    ensures BlocksOf(ToCrlf(output)) == BlocksOf(output)
  {
    hide Lines, ToCrlf, SameMeaning;
    LinesOfCrlf(output);
    var ls, ms := Lines(output), Lines(ToCrlf(output));
    forall i | 0 <= i < |ls|
      ensures SameMeaning(ls[i], ms[i])
    {
      CarriageReturnIgnored(ls[i]);
      Reflexive(ls[i]);
    }
    SameMeaningSameBlocks(ls, ms, []);
  }

  lemma Reflexive(line: string)
    ensures SameMeaning(line, line)
  {}

  // ---- Labels ----------------------------------------------------------------------------------

  /** b is a with the text before its first colon replaced by some other colon-free text. */
  predicate Relabelled(a: string, b: string) {
    if ColonAt(a) == |a| then b == a
    else ColonAt(b) < |b| && b[ColonAt(b)..] == a[ColonAt(a)..]
  }

  lemma RelabelledSame(a: string, b: string)
    requires Relabelled(a, b)
    ensures SameMeaning(a, b)
  {
    if ColonAt(a) < |a| {
      var x, y := a[ColonAt(a)..], b[ColonAt(b)..];
      assert a[ColonAt(a) + 1..] == x[1..] && b[ColonAt(b) + 1..] == y[1..];
      assert a[ColonAt(a)] in a && b[ColonAt(b)] in b;
    }
  }

  /** For every two outputs that differ, line by line, only before the first colon, whatever
      language the labels are in, the blocks are the same. */
  lemma LabelsIrrelevant(output: string, localized: string)
    requires |Lines(output)| == |Lines(localized)|
    requires forall i | 0 <= i < |Lines(output)| :: Relabelled(Lines(output)[i], Lines(localized)[i])
    ensures BlocksOf(output) == BlocksOf(localized)
  {
    hide Lines, Relabelled, SameMeaning;
    var ls, ms := Lines(output), Lines(localized);
    forall i | 0 <= i < |ls|
      ensures SameMeaning(ls[i], ms[i])
    {
      RelabelledSame(ls[i], ms[i]);
    }
    SameMeaningSameBlocks(ls, ms, []);
  }

  // ---- Round trip --------------------------------------------------------------------------------

  /** A value a listing can carry on one line. */
  predicate PlainValue(v: string) {
    v != [] && !IsWhiteSpace(v[0]) && !IsWhiteSpace(v[|v| - 1])
  }

  function Line(label_: string, value: string): string {
    label_ + ": " + value
  }

  function BlockLines(label_: string, block: seq<string>): (ls: seq<string>) {
    if block == [] then [""] else [Line(label_, block[0])] + BlockLines(label_, block[1..])
  }

  function ListingLines(label_: string, blocks: seq<seq<string>>): seq<string> {
    if blocks == [] then [] else BlockLines(label_, blocks[0]) + ListingLines(label_, blocks[1..])
  }

  lemma LineRead(label_: string, value: string)
    requires ':' !in label_ && PlainValue(value)
    ensures !IsBlank(Line(label_, value)) && Kept(Line(label_, value)) == [value]
  {
    hide IsWhiteSpace;
    var line := Line(label_, value);
    assert line[|label_|] == ':';
    assert forall j | 0 <= j < |label_| :: line[j] == label_[j];
    assert ColonAt(line) == |label_|;
    assert line[|label_| + 1..] == [' '] + value;
    assert IsWhiteSpace(' ') && !IsWhiteSpace(':') by { Space(); }
    assert line[|label_|] in line;
    assert ([' '] + value)[1..] == value;
    assert Trim([' '] + value) == TrimEnd(TrimStart(value)) == value;
  }

  lemma Space()
    ensures IsWhiteSpace(' ') && !IsWhiteSpace(':')
  {}

  lemma {:induction false} BlockRead(label_: string, block: seq<string>, before: seq<string>, rest: seq<string>)
    requires ':' !in label_ && forall v <- block :: PlainValue(v)
    ensures Blocks(BlockLines(label_, block) + rest, before) == Closed(before + block) + Blocks(rest, [])
    decreases |block|
  {
    hide Line, PlainValue, Kept;
    var lines := BlockLines(label_, block) + rest;
    if block == [] {
      assert lines[1..] == rest;
      assert before + block == before;
    } else {
      LineRead(label_, block[0]);
      assert lines[1..] == BlockLines(label_, block[1..]) + rest;
      BlockRead(label_, block[1..], before + [block[0]], rest);
      assert before + [block[0]] + block[1..] == before + block;
    }
  }

  lemma {:induction false} ListingRead(label_: string, blocks: seq<seq<string>>, rest: seq<string>)
    requires ':' !in label_ && Blocks(rest, []) == []
    requires forall b <- blocks :: b != [] && forall v <- b :: PlainValue(v)
    ensures Blocks(ListingLines(label_, blocks) + rest, []) == blocks
    decreases |blocks|
  {
    hide PlainValue;
    if blocks == [] {
      assert ListingLines(label_, blocks) + rest == rest;
    } else {
      assert blocks[0] in blocks;
      assert forall b <- blocks[1..] :: b in blocks;
      var more := ListingLines(label_, blocks[1..]);
      ListingRead(label_, blocks[1..], rest);
      BlockRead(label_, blocks[0], [], more + rest);
      assert [] + blocks[0] == blocks[0];
      assert BlockLines(label_, blocks[0]) + more + rest == BlockLines(label_, blocks[0]) + (more + rest);
    }
  }

  /** Lines as text, each ended by a newline. */
  function Text(ls: seq<string>): string {
    if ls == [] then [] else ls[0] + "\n" + Text(ls[1..])
  }

  lemma {:induction false} LineSplits(line: string, rest: string)
    requires '\n' !in line
    ensures Lines(line + "\n" + rest) == [line] + Lines(rest)
  {
    var s := line + "\n" + rest;
    if line == [] {
      assert s[1..] == rest;
    } else {
      LineSplits(line[1..], rest);
      assert s[1..] == line[1..] + "\n" + rest;
      assert [line[0]] + line[1..] == line;
    }
  }

  lemma {:induction false} LinesOfText(ls: seq<string>)
    requires forall l <- ls :: '\n' !in l
    ensures Lines(Text(ls)) == ls + [""]
  {
    hide Lines;
    if ls == [] {
      assert Lines([]) == [""] by { EmptyText(); }
    } else {
      LineSplits(ls[0], Text(ls[1..]));
      LinesOfText(ls[1..]);
    }
  }

  lemma EmptyText()
    ensures Lines([]) == [""]
  {}

  lemma {:induction false} BlockLinesPlain(label_: string, block: seq<string>)
    requires '\n' !in label_ && forall v <- block :: '\n' !in v
    ensures forall l <- BlockLines(label_, block) :: '\n' !in l
  {
    if block != [] {
      BlockLinesPlain(label_, block[1..]);
    }
  }

  lemma {:induction false} ListingLinesPlain(label_: string, blocks: seq<seq<string>>)
    requires '\n' !in label_ && forall b <- blocks, v <- b :: '\n' !in v
    ensures forall l <- ListingLines(label_, blocks) :: '\n' !in l
  {
    if blocks != [] {
      assert blocks[0] in blocks;
      assert forall b <- blocks[1..] :: b in blocks;
      BlockLinesPlain(label_, blocks[0]);
      ListingLinesPlain(label_, blocks[1..]);
    }
  }

  /** Whatever the label, the text of a listing of non-empty blocks of plain values is read
      back exactly. */
  lemma TextReadBack(label_: string, blocks: seq<seq<string>>)
    requires ':' !in label_ && '\n' !in label_
    requires forall b <- blocks :: b != [] && forall v <- b :: PlainValue(v) && '\n' !in v
    ensures BlocksOf(Text(ListingLines(label_, blocks))) == blocks
  {
    hide Lines, ListingLines, PlainValue;
    ListingLinesPlain(label_, blocks);
    LinesOfText(ListingLines(label_, blocks));
    assert Blocks([""], []) == [] by { assert [""][1..] == []; }
    ListingRead(label_, blocks, [""]);
  }

  // ---- The two queries -------------------------------------------------------------------------------

  /** OrdinalIgnoreCase folding and the two name patterns, left open. */
  datatype Patterns = Patterns(fold: string -> string, published: string -> bool, inf: string -> bool)

  function FirstWhere(values: seq<string>, p: string -> bool): (r: Option<string>)
    ensures r.Some? ==> r.value in values && p(r.value)
    ensures r.None? ==> forall v <- values :: !p(v)
  {
    if values == [] then None
    else if p(values[0]) then Some(values[0])
    else FirstWhere(values[1..], p)
  }

  predicate ContainsFolded(k: Patterns, values: seq<string>, name: string) {
    exists v <- values :: k.fold(v) == k.fold(name)
  }

  /** First published name of every block that mentions the original name, without repeats. */
  function PublishedNames(k: Patterns, blocks: seq<seq<string>>, name: string): seq<string> {
    if blocks == [] then []
    else
      var last := blocks[|blocks| - 1];
      var names := PublishedNames(k, blocks[..|blocks| - 1], name);
      var found := if ContainsFolded(k, last, name) then FirstWhere(last, k.published) else None;
      if found.None? || ContainsFolded(k, names, found.value) then names else names + [found.value]
  }

  function ParsePublishedNames(k: Patterns, output: string, name: string): seq<string> {
    PublishedNames(k, BlocksOf(output), name)
  }

  datatype DeviceDriver = DeviceDriver(instanceId: string, driverInf: string)

  lemma {:induction false} BlocksNonEmpty(lines: seq<string>, block: seq<string>)
    ensures forall b <- Blocks(lines, block) :: b != []
    decreases |lines|
  {
    hide IsBlank, Kept;
    if lines != [] {
      BlocksNonEmpty(lines[1..], []);
      BlocksNonEmpty(lines[1..], block + Kept(lines[0]));
    }
  }

  function DeviceDrivers(k: Patterns, blocks: seq<seq<string>>): (ds: seq<DeviceDriver>)
    requires forall b <- blocks :: b != []
  {
    if blocks == [] then []
    else
      assert blocks[0] in blocks;
      assert forall b <- blocks[1..] :: b in blocks;
      var inf := FirstWhere(blocks[0], k.inf);
      [DeviceDriver(blocks[0][0], if inf.Some? then inf.value else "")] + DeviceDrivers(k, blocks[1..])
  }

  function ParseDeviceDrivers(k: Patterns, output: string): seq<DeviceDriver> {
    BlocksNonEmpty(Lines(output), []);
    DeviceDrivers(k, BlocksOf(output))
  }

  /** The first value of this kind. */
  predicate FirstAt(values: seq<string>, p: string -> bool, j: nat) {
    j < |values| && p(values[j]) && forall i | 0 <= i < j :: !p(values[i])
  }

  lemma {:induction false} FirstWhereIsFirst(values: seq<string>, p: string -> bool, j: nat)
    requires FirstAt(values, p, j)
    ensures FirstWhere(values, p) == Some(values[j])
  {
    if j > 0 {
      assert forall i | 0 <= i < j - 1 :: values[1..][i] == values[i + 1];
      FirstWhereIsFirst(values[1..], p, j - 1);
    }
  }

  /** One entry for each block: its first value is the instance id, its first .inf value the
      driver, and the empty string when it has none. */
  lemma {:induction false} DeviceDriversExact(k: Patterns, blocks: seq<seq<string>>, i: nat)
    requires (forall b <- blocks :: b != []) && i < |blocks|
    ensures |DeviceDrivers(k, blocks)| == |blocks|
    ensures var d := DeviceDrivers(k, blocks)[i];
      && blocks[i] in blocks && d.instanceId == blocks[i][0]
      && (forall j: nat | FirstAt(blocks[i], k.inf, j) :: d.driverInf == blocks[i][j])
      && ((forall v <- blocks[i] :: !k.inf(v)) ==> d.driverInf == "")
  {
    assert blocks[0] in blocks && forall b <- blocks[1..] :: b in blocks;
    if i > 0 {
      DeviceDriversExact(k, blocks[1..], i - 1);
    } else {
      if |blocks| > 1 {
        DeviceDriversExact(k, blocks[1..], 0);
      }
      forall j: nat | FirstAt(blocks[0], k.inf, j)
        ensures FirstWhere(blocks[0], k.inf) == Some(blocks[0][j])
      {
        FirstWhereIsFirst(blocks[0], k.inf, j);
      }
    }
  }

  predicate Names(k: Patterns, block: seq<string>, name: string, published: string) {
    ContainsFolded(k, block, name) && FirstWhere(block, k.published) == Some(published)
  }

  lemma {:induction false} PublishedNamesSound(k: Patterns, blocks: seq<seq<string>>, name: string, n: string)
    requires n in PublishedNames(k, blocks, name)
    ensures exists b <- blocks :: Names(k, b, name, n)
  {
    var front, last := blocks[..|blocks| - 1], blocks[|blocks| - 1];
    assert blocks == front + [last];
    if n in PublishedNames(k, front, name) {
      PublishedNamesSound(k, front, name, n);
      var b :| b in front && Names(k, b, name, n);
      assert b in blocks;
    } else {
      assert last in blocks && Names(k, last, name, n);
    }
  }

  lemma {:induction false} PublishedNamesComplete(k: Patterns, blocks: seq<seq<string>>, name: string,
                                                  b: seq<string>, n: string)
    requires b in blocks && Names(k, b, name, n)
    ensures ContainsFolded(k, PublishedNames(k, blocks, name), n)
  {
    var front, last := blocks[..|blocks| - 1], blocks[|blocks| - 1];
    assert blocks == front + [last];
    var before, names := PublishedNames(k, front, name), PublishedNames(k, blocks, name);
    if b in front {
      PublishedNamesComplete(k, front, name, b, n);
      var v :| v in before && k.fold(v) == k.fold(n);
      assert v in names;
    } else if names != before {
      assert n in names;
    }
  }

  predicate Distinct(k: Patterns, names: seq<string>) {
    forall i, j | 0 <= i < j < |names| :: k.fold(names[i]) != k.fold(names[j])
  }

  lemma DistinctAppend(k: Patterns, names: seq<string>, n: string)
    requires Distinct(k, names) && !ContainsFolded(k, names, n)
    ensures Distinct(k, names + [n])
  {
    var more := names + [n];
    forall i, j | 0 <= i < j < |more|
      ensures k.fold(more[i]) != k.fold(more[j])
    {
      if j == |names| {
        assert names[i] in names;
      } else {
        assert more[i] == names[i] && more[j] == names[j];
      }
    }
  }

  lemma {:induction false} PublishedNamesDistinct(k: Patterns, blocks: seq<seq<string>>, name: string)
    ensures Distinct(k, PublishedNames(k, blocks, name))
  {
    hide Distinct, ContainsFolded;
    if blocks == [] {
      assert Distinct(k, []) by { NoneDistinct(k); }
    } else {
      var front, last := blocks[..|blocks| - 1], blocks[|blocks| - 1];
      PublishedNamesDistinct(k, front, name);
      var before, names := PublishedNames(k, front, name), PublishedNames(k, blocks, name);
      if |names| > |before| {
        DistinctAppend(k, before, names[|before|]);
      }
    }
  }

  lemma NoneDistinct(k: Patterns)
    ensures Distinct(k, [])
  {}

  function Published(k: Patterns, block: seq<string>, name: string): Option<string> {
    if ContainsFolded(k, block, name) then FirstWhere(block, k.published) else None
  }

  /** A block that mentions the original name publishes the first of its values that is a
      published name; no other block publishes anything. */
  lemma PublishedExactly(k: Patterns, block: seq<string>, name: string, j: nat)
    ensures (exists v <- block :: k.fold(v) == k.fold(name)) && FirstAt(block, k.published, j)
            ==> Published(k, block, name) == Some(block[j])
    ensures (forall v <- block :: k.fold(v) != k.fold(name)) ==> Published(k, block, name).None?
    ensures (forall v <- block :: !k.published(v)) ==> Published(k, block, name).None?
  {
    if FirstAt(block, k.published, j) {
      FirstWhereIsFirst(block, k.published, j);
    }
  }

  /** The block contributes a published name that no block before it does, up to case. */
  predicate NamesFirst(k: Patterns, blocks: seq<seq<string>>, name: string, i: nat) {
    && i < |blocks| && Published(k, blocks[i], name).Some?
    && forall j | 0 <= j < i && Published(k, blocks[j], name).Some? ::
         k.fold(Published(k, blocks[j], name).value) != k.fold(Published(k, blocks[i], name).value)
  }

  ghost predicate InBlockOrder(k: Patterns, blocks: seq<seq<string>>, name: string, names: seq<string>, at: seq<nat>) {
    && |at| == |names|
    && (forall j | 0 <= j < |at| :: NamesFirst(k, blocks, name, at[j]))
    && (forall j | 0 <= j < |at| :: at[j] < |blocks| && Published(k, blocks[at[j]], name) == Some(names[j]))
    && (forall i, j | 0 <= i < j < |at| :: at[i] < at[j])
    && (forall i: nat | NamesFirst(k, blocks, name, i) :: i in at)
  }

  lemma {:induction false} NamesFirstOfFront(k: Patterns, front: seq<seq<string>>, last: seq<string>, name: string)
    ensures forall i: nat | i < |front| :: NamesFirst(k, front + [last], name, i) <==> NamesFirst(k, front, name, i)
  {
    var blocks := front + [last];
    forall i: nat | i < |front|
      ensures NamesFirst(k, blocks, name, i) <==> NamesFirst(k, front, name, i)
    {
      assert forall j | 0 <= j <= i :: blocks[j] == front[j];
    }
  }

  /** The last block is a first occurrence exactly when its name is not in the list yet. */
  lemma LastIsNew(k: Patterns, front: seq<seq<string>>, last: seq<string>, name: string)
    requires Published(k, last, name).Some?
    ensures NamesFirst(k, front + [last], name, |front|)
       <==> !ContainsFolded(k, PublishedNames(k, front, name), Published(k, last, name).value)
  {
    var names, found := PublishedNames(k, front, name), Published(k, last, name).value;
    if ContainsFolded(k, names, found) {
      var n :| n in names && k.fold(n) == k.fold(found);
      PublishedNamesSound(k, front, name, n);
      var b :| b in front && Names(k, b, name, n);
      var j :| 0 <= j < |front| && front[j] == b;
      assert (front + [last])[j] == b;
    } else {
      forall j | 0 <= j < |front| && Published(k, front[j], name).Some?
        ensures k.fold(Published(k, front[j], name).value) != k.fold(found)
      {
        PublishedNamesComplete(k, front, name, front[j], Published(k, front[j], name).value);
      }
      assert forall j | 0 <= j < |front| :: (front + [last])[j] == front[j];
    }
  }

  /** The published names are, in block order and as first spelt, those of the blocks that
      mention the original name and publish one that no block before them does, up to case. */
  lemma {:induction false} PublishedNamesExact(k: Patterns, blocks: seq<seq<string>>, name: string)
    returns (at: seq<nat>)
    ensures InBlockOrder(k, blocks, name, PublishedNames(k, blocks, name), at)
    ensures Distinct(k, PublishedNames(k, blocks, name))
  {
    hide InBlockOrder, Distinct, ContainsFolded;
    PublishedNamesDistinct(k, blocks, name);
    if blocks == [] {
      at := [];
      NothingInOrder(k, name);
    } else {
      var front, last := blocks[..|blocks| - 1], blocks[|blocks| - 1];
      assert blocks == front + [last];
      at := PublishedNamesExact(k, front, name);
      OrderExtends(k, front, last, name, PublishedNames(k, front, name), at);
      if Published(k, last, name).Some? {
        LastIsNew(k, front, last, name);
      }
      if NamesFirst(k, blocks, name, |front|) {
        at := at + [|front|];
      }
    }
  }

  lemma NothingInOrder(k: Patterns, name: string)
    ensures InBlockOrder(k, [], name, [], [])
  {}

  lemma OrderExtends(k: Patterns, front: seq<seq<string>>, last: seq<string>, name: string,
                     names: seq<string>, at: seq<nat>)
    requires InBlockOrder(k, front, name, names, at)
    ensures var blocks := front + [last];
      if NamesFirst(k, blocks, name, |front|)
      then InBlockOrder(k, blocks, name, names + [Published(k, last, name).value], at + [|front|])
      else InBlockOrder(k, blocks, name, names, at)
  {
    hide Published, NamesFirst;
    var blocks := front + [last];
    NamesFirstOfFront(k, front, last, name);
    forall i: nat | NamesFirst(k, blocks, name, i) && i != |front|
      ensures i in at
    {
      assert i < |blocks| by { NamesFirstInside(k, blocks, name, i); }
      assert NamesFirst(k, front, name, i);
    }
    forall j | 0 <= j < |at|
      ensures NamesFirst(k, blocks, name, at[j]) && Published(k, blocks[at[j]], name) == Some(names[j])
    {
      assert NamesFirst(k, front, name, at[j]) && blocks[at[j]] == front[at[j]];
    }
    if NamesFirst(k, blocks, name, |front|) {
      NamesFirstInside(k, blocks, name, |front|);
      assert blocks[|front|] == last;
      var more := at + [|front|];
      assert forall i | i in at :: i in more;
      assert more[|at|] == |front| && |front| in more;
    }
  }

  lemma NamesFirstInside(k: Patterns, blocks: seq<seq<string>>, name: string, i: nat)
    requires NamesFirst(k, blocks, name, i)
    ensures i < |blocks| && Published(k, blocks[i], name).Some?
  {}

  /** Both queries are blind to line ends and to the language of the labels. */
  lemma QueriesInvariant(k: Patterns, output: string, localized: string, name: string)
    requires |Lines(output)| == |Lines(localized)|
    requires forall i | 0 <= i < |Lines(output)| :: Relabelled(Lines(output)[i], Lines(localized)[i])
    ensures ParsePublishedNames(k, ToCrlf(localized), name) == ParsePublishedNames(k, output, name)
    ensures ParseDeviceDrivers(k, ToCrlf(localized)) == ParseDeviceDrivers(k, output)
  {
    LabelsIrrelevant(output, localized);
    CrlfInvariant(localized);
  }
}
