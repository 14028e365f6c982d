/** The configuration reader: a loop over lines that files each section when the next header, or the end, comes. */
module Config {
  import opened Text

  type Pairs = map<string, string>

  /** What the tests of the loop body make of a line. */
  datatype Line = Blank | Comment | Header(name: string) | Pair(key: string, value: string) | Invalid

  function Classify(line: string): Line {
    if line == "" then Blank
    else if line[0] == ';' || line[0] == '#' then Comment
    else if line[0] == '[' && line[|line| - 1] == ']' then Header(line[1..|line| - 1])
    else
      var i := Find(line, '=', 0);
      if i < |line| then Pair(line[..i], line[i + 1..]) else Invalid
  }

  /** The variables of the loop. */
  datatype Reading = Reading(sections: map<string, Pairs>, name: string, pairs: Pairs)

  /** The delayed flush. */
  function Flushed(r: Reading): map<string, Pairs> {
    if r.name != "" then r.sections[r.name := r.pairs] else r.sections
  }

  function Step(r: Reading, line: string): Reading {
    match Classify(line)
    case Header(name) => Reading(Flushed(r), name, map[])
    case Pair(key, value) => r.(pairs := r.pairs[key := value])
    case _ => r
  }

  function Fold(r: Reading, lines: seq<string>): Reading {
    if lines == [] then r else Step(Fold(r, lines[..|lines| - 1]), lines[|lines| - 1])
  }

  const START: Reading := Reading(map[], "", map[])

  /** The sections read from `lines`. */
  function ReadAll(lines: seq<string>): map<string, Pairs> {
    Flushed(Fold(START, lines))
  }

  // ---------------------------------------------------------------------------
  // The order of a map from strings

  /** `a` comes before `b`. */
  predicate Below(a: string, b: string) {
    b != "" && (a == "" || a[0] < b[0] || (a[0] == b[0] && Below(a[1..], b[1..])))
  }

  lemma {:induction false} BelowAfterPrefix(prefix: string, a: string, b: string)
    ensures Below(prefix + a, prefix + b) <==> Below(a, b)
  {
    if prefix == "" {
      assert prefix + a == a && prefix + b == b;
    } else {
      assert (prefix + a)[1..] == prefix[1..] + a && (prefix + b)[1..] == prefix[1..] + b;
      BelowAfterPrefix(prefix[1..], a, b);
    }
  }

  lemma {:induction false} BelowIsTotal(a: string, b: string)
    ensures a == b || Below(a, b) || Below(b, a)
  {
    if a != "" && b != "" && a[0] == b[0] {
      BelowIsTotal(a[1..], b[1..]);
      assert a == [a[0]] + a[1..] && b == [b[0]] + b[1..];
    }
  }

  lemma {:induction false} BelowIsTransitive(a: string, b: string, c: string)
    requires Below(a, b) && Below(b, c)
    ensures Below(a, c)
  {
    if a != "" && a[0] == b[0] == c[0] {
      BelowIsTransitive(a[1..], b[1..], c[1..]);
    }
  }

  predicate IsLeast(name: string, names: set<string>) {
    name in names && forall other :: other in names && other != name ==> Below(name, other)
  }

  lemma {:induction false} LeastExists(names: set<string>)
    requires names != {}
    ensures exists name :: IsLeast(name, names)
  {
    var x :| x in names;
    var others := names - {x};
    if others == {} {
      assert names == {x};
      assert IsLeast(x, names);
    } else {
      LeastExists(others);
      var y :| IsLeast(y, others);
      BelowIsTotal(x, y);
      if Below(y, x) {
        assert IsLeast(y, names);
      } else {
        forall other | other in names && other != x ensures Below(x, other) {
          if other != y {
            BelowIsTransitive(x, y, other);
          }
        }
        assert IsLeast(x, names);
      }
    }
  }

  class Config {
    var sections: map<string, Pairs>

    constructor (lines: seq<string>)
      ensures sections == ReadAll(lines)
    {
      sections := map[];
      new;
      Read(lines);
    }

    method Read(lines: seq<string>)
      modifies this
      ensures sections == Flushed(Fold(Reading(old(sections), "", map[]), lines))
    {
      var currentMap: Pairs := map[];
      var currentName := "";
      ghost var start := Reading(sections, "", map[]);
      for i := 0 to |lines|
        invariant Reading(sections, currentName, currentMap) == Fold(start, lines[..i])
      {
        var line := lines[i];
        assert lines[..i + 1][..i] == lines[..i];
        if line == "" {
          continue;
        }
        if line[0] in {';', '#'} {
          continue;
        }
        if line[0] == '[' && line[|line| - 1] == ']' {
          if currentName != "" {
            sections := sections[currentName := currentMap];
          }
          currentName := line[1..|line| - 1];
          currentMap := map[];
          continue;
        }
        var pos := Find(line, '=', 0);
        if pos < |line| {
          currentMap := currentMap[line[..pos] := line[pos + 1..]];
          continue;
        }
      }
      assert lines[..|lines|] == lines;
      if currentName != "" {
        sections := sections[currentName := currentMap];
      }
    }

    /** The names of the sections of a type, without the prefix, in the order of a map from strings. */
    method GetSections(kind: string) returns (result: seq<string>)
      ensures forall r :: r in result <==> kind + ":" + r in sections
      ensures forall i, j :: 0 <= i < j < |result| ==> Below(result[i], result[j])
    {
      result := [];
      var prefix := kind + ":";
      var rest := sections.Keys;
      while rest != {}
        invariant rest <= sections.Keys
        invariant forall r :: r in result <==> prefix + r in sections && prefix + r !in rest
        invariant forall r, name :: r in result && name in rest ==> Below(prefix + r, name)
        invariant forall i, j :: 0 <= i < j < |result| ==> Below(result[i], result[j])
        decreases rest
      {
        LeastExists(rest);
        var name :| IsLeast(name, rest);
        var others := rest - {name};
        if prefix <= name {
          var r := name[|prefix|..];
          assert name == prefix + r;
          forall i | 0 <= i < |result| ensures Below(result[i], r) {
            assert result[i] in result;
            BelowAfterPrefix(prefix, result[i], r);
          }
          result := result + [r];
        }
        rest := others;
      }
    }

    /** The pairs of a section; a section that does not exist is created empty. */
    method GetSection(name: string) returns (pairs: Pairs)
      modifies this
      ensures pairs == if name in old(sections) then old(sections)[name] else map[]
      ensures sections == if name in old(sections) then old(sections) else old(sections)[name := map[]]
    {
      if name !in sections {
        sections := sections[name := map[]];
      }
      return sections[name];
    }
  }

  // ---------------------------------------------------------------------------
  // What a configuration means

  predicate IsHeader(line: string, name: string) { Classify(line) == Header(name) }

  /** The last header of a section. */
  ghost predicate LastHeader(lines: seq<string>, name: string, i: nat) {
    i < |lines| && IsHeader(lines[i], name) && forall j :: i < j < |lines| ==> !IsHeader(lines[j], name)
  }

  /** Where the block that starts at `from` ends: at the next header of any name, or at the end. */
  function BlockEnd(lines: seq<string>, from: nat): (e: nat)
    requires from <= |lines|
    ensures from <= e <= |lines|
    ensures forall j :: from <= j < e ==> !Classify(lines[j]).Header?
    ensures e < |lines| ==> Classify(lines[e]).Header?
    decreases |lines| - from
  {
    if from == |lines| || Classify(lines[from]).Header? then from else BlockEnd(lines, from + 1)
  }

  /** The pairs of a block; of several with the same key the last one counts. */
  function KeyMap(block: seq<string>): Pairs {
    if block == [] then map[]
    else
      var m := KeyMap(block[..|block| - 1]);
      match Classify(block[|block| - 1])
      case Pair(key, value) => m[key := value]
      case _ => m
  }

  /** The pairs of the block after the header at `i`. */
  function BlockAt(lines: seq<string>, i: nat): Pairs
    requires i < |lines|
  {
    KeyMap(lines[i + 1..BlockEnd(lines, i + 1)])
  }

  ghost predicate MeansFor(lines: seq<string>, sections: map<string, Pairs>, name: string) {
    && (name in sections <==> name != "" && exists i: nat :: LastHeader(lines, name, i))
    && (forall i: nat :: LastHeader(lines, name, i) && name in sections ==> sections[name] == BlockAt(lines, i))
  }

  /** Each non-empty section name stands for the pairs of the block after its last header, and there are no others. */
  ghost predicate Means(lines: seq<string>, sections: map<string, Pairs>) {
    forall name :: MeansFor(lines, sections, name)
  }

  /** The section the loop is in: no header yet, or the last header of any name and the pairs after it. */
  ghost predicate Inside(lines: seq<string>, r: Reading) {
    || (r.name == "" && forall j :: 0 <= j < |lines| ==> !Classify(lines[j]).Header?)
    || (exists h: nat :: InBlock(lines, r, h))
  }

  ghost predicate InBlock(lines: seq<string>, r: Reading, h: nat) {
    && h < |lines| && Classify(lines[h]) == Header(r.name) && BlockEnd(lines, h + 1) == |lines|
    && r.pairs == KeyMap(lines[h + 1..])
  }

  lemma BlockEndIs(lines: seq<string>, from: nat, e: nat)
    requires from <= e <= |lines| && (e < |lines| ==> Classify(lines[e]).Header?)
    requires forall j :: from <= j < e ==> !Classify(lines[j]).Header?
    ensures BlockEnd(lines, from) == e
  {
    hide Classify;
    var b := BlockEnd(lines, from);
  }

  /** One more line ends an open block if it is a header, and changes no closed one. */
  lemma BlockEndGrows(lines: seq<string>, line: string, from: nat)
    requires from <= |lines|
    ensures var e := BlockEnd(lines, from);
            BlockEnd(lines + [line], from) == if e < |lines| || Classify(line).Header? then e else |lines| + 1
  {
    hide Classify;
    var all := lines + [line];
    var e := BlockEnd(lines, from);
    assert forall j :: 0 <= j < |lines| ==> all[j] == lines[j];
    BlockEndIs(all, from, if e < |lines| || Classify(line).Header? then e else |lines| + 1);
  }

  lemma LastHeaderGrows(lines: seq<string>, line: string, name: string, i: nat)
    ensures LastHeader(lines + [line], name, i)
       <==> if IsHeader(line, name) then i == |lines| else LastHeader(lines, name, i)
  {
    hide Classify;
    var all := lines + [line];
    assert forall j :: 0 <= j < |lines| ==> all[j] == lines[j];
    assert all[|lines|] == line;
    assert IsHeader(line, name) ==> IsHeader(all[|lines|], name);
  }

  lemma KeyMapGrows(block: seq<string>, line: string)
    ensures KeyMap(block + [line]) == match Classify(line)
                                      case Pair(key, value) => KeyMap(block)[key := value]
                                      case _ => KeyMap(block)
  {
    assert (block + [line])[..|block|] == block;
  }

  /** The block of a section after one more line. */
  lemma BlockGrows(lines: seq<string>, line: string, i: nat)
    requires i < |lines|
    ensures BlockAt(lines + [line], i)
         == if BlockEnd(lines, i + 1) < |lines| || Classify(line).Header? then BlockAt(lines, i)
            else KeyMap(lines[i + 1..] + [line])
  {
    BlockEndGrows(lines, line, i + 1);
    hide Classify;
    hide KeyMap;
    var all, e := lines + [line], BlockEnd(lines, i + 1);
    if e == |lines| {
      assert all[i + 1..|lines| + 1] == lines[i + 1..] + [line];
    }
    assert all[i + 1..e] == lines[i + 1..e];
  }

  lemma HeaderStepFor(lines: seq<string>, line: string, r: Reading, name: string)
    requires MeansFor(lines, Flushed(r), name) && Classify(line).Header?
    ensures MeansFor(lines + [line], Flushed(Step(r, line)), name)
  {
    var all, newest := lines + [line], Classify(line).name;
    forall i: nat ensures LastHeader(all, name, i) <==> if name == newest then i == |lines| else LastHeader(lines, name, i) {
      LastHeaderGrows(lines, line, name, i);
    }
    assert name == newest ==> LastHeader(all, name, |lines|) && BlockAt(all, |lines|) == map[];
    hide Classify;
    hide KeyMap;
    forall i: nat | LastHeader(lines, name, i) ensures name != newest ==> BlockAt(all, i) == BlockAt(lines, i) {
      BlockGrows(lines, line, i);
    }
    hide BlockAt;
    hide LastHeader;
  }

  /** The blocks after a line that is no header: only the open one has changed. */
  lemma PairBlock(lines: seq<string>, line: string, r: Reading, h: nat, name: string, i: nat)
    requires InBlock(lines, r, h) && !Classify(line).Header? && LastHeader(lines, name, i)
    ensures BlockAt(lines + [line], i) == if name == r.name then Step(r, line).pairs else BlockAt(lines, i)
  {
    OpenBlockIsLast(lines, r.name, h);
    KeyMapGrows(lines[h + 1..], line);
    BlockGrows(lines, line, i);
    if name != r.name {
      OtherBlockIsClosed(lines, h, i);
    }
    hide BlockAt;
    hide KeyMap;
  }

  lemma PairStepFor(lines: seq<string>, line: string, r: Reading, name: string, h: nat)
    requires MeansFor(lines, Flushed(r), name) && InBlock(lines, r, h) && !Classify(line).Header?
    ensures MeansFor(lines + [line], Flushed(Step(r, line)), name)
  {
    var all, next := lines + [line], Step(r, line);
    OpenBlockIsLast(lines, r.name, h);
    forall i: nat ensures LastHeader(all, name, i) <==> LastHeader(lines, name, i) {
      LastHeaderGrows(lines, line, name, i);
    }
    forall i: nat | LastHeader(lines, name, i)
      ensures BlockAt(all, i) == if name == r.name then next.pairs else BlockAt(lines, i)
    {
      PairBlock(lines, line, r, h, name, i);
    }
    assert next.name == r.name && next.sections == r.sections;
    hide BlockAt;
    hide LastHeader;
    hide Classify;
    hide KeyMap;
  }

  lemma HeaderStep(lines: seq<string>, line: string, r: Reading)
    requires Means(lines, Flushed(r)) && Classify(line).Header?
    ensures Means(lines + [line], Flushed(Step(r, line))) && Inside(lines + [line], Step(r, line))
  {
    forall name ensures MeansFor(lines + [line], Flushed(Step(r, line)), name) {
      HeaderStepFor(lines, line, r, name);
    }
    assert InBlock(lines + [line], Step(r, line), |lines|);
  }

  lemma PairStep(lines: seq<string>, line: string, r: Reading)
    requires Means(lines, Flushed(r)) && Inside(lines, r) && !Classify(line).Header?
    ensures Means(lines + [line], Flushed(Step(r, line))) && Inside(lines + [line], Step(r, line))
  {
    var all, next := lines + [line], Step(r, line);
    if h: nat :| InBlock(lines, r, h) {
      forall name ensures MeansFor(all, Flushed(next), name) {
        PairStepFor(lines, line, r, name, h);
      }
      BlockEndGrows(lines, line, h + 1);
      assert all[h + 1..] == lines[h + 1..] + [line];
      KeyMapGrows(lines[h + 1..], line);
      assert InBlock(all, next, h);
    } else {
      assert next.name == "" && Flushed(next) == Flushed(r);
      forall name ensures MeansFor(all, Flushed(next), name) {
        assert MeansFor(lines, Flushed(r), name);
        forall i: nat ensures !LastHeader(lines, name, i) && !LastHeader(all, name, i) {
          LastHeaderGrows(lines, line, name, i);
        }
      }
    }
  }

  lemma OtherBlockIsClosed(lines: seq<string>, h: nat, i: nat)
    requires h < |lines| && i < |lines| && i != h && Classify(lines[h]).Header? && Classify(lines[i]).Header?
    requires BlockEnd(lines, h + 1) == |lines|
    ensures i < h && BlockEnd(lines, i + 1) < |lines|
  {
  }

  lemma OpenBlockIsLast(lines: seq<string>, name: string, h: nat)
    requires h < |lines| && Classify(lines[h]) == Header(name) && BlockEnd(lines, h + 1) == |lines|
    ensures LastHeader(lines, name, h)
    ensures forall i: nat :: LastHeader(lines, name, i) ==> i == h
  {
  }

  lemma {:induction false} FoldMeans(lines: seq<string>)
    ensures Means(lines, ReadAll(lines)) && Inside(lines, Fold(START, lines))
  {
    if lines != [] {
      var init, line := lines[..|lines| - 1], lines[|lines| - 1];
      assert lines == init + [line];
      FoldMeans(init);
      if Classify(line).Header? {
        HeaderStep(init, line, Fold(START, init));
      } else {
        PairStep(init, line, Fold(START, init));
      }
    }
  }

  /** The delayed-flush loop computes the declared meaning, and nothing else has it. */
  lemma ReadAllIsTheMeaning(lines: seq<string>, sections: map<string, Pairs>)
    ensures Means(lines, sections) <==> sections == ReadAll(lines)
  {
    FoldMeans(lines);
    var all := ReadAll(lines);
    if Means(lines, sections) {
      forall name ensures name in sections <==> name in all
                  ensures name in sections && name in all ==> sections[name] == all[name] {
        assert MeansFor(lines, sections, name) && MeansFor(lines, all, name);
        if i: nat :| LastHeader(lines, name, i) {
          hide LastHeader;
          hide BlockAt;
        }
      }
    }
  }

  /** In a block every key that occurs has the value of its last occurrence. */
  lemma {:induction false} LastPairWins(block: seq<string>, key: string)
    ensures key in KeyMap(block) <==> exists i :: 0 <= i < |block| && Classify(block[i]).Pair? && Classify(block[i]).key == key
    ensures forall i :: 0 <= i < |block| && Classify(block[i]).Pair? && Classify(block[i]).key == key
              && (forall j :: i < j < |block| ==> !(Classify(block[j]).Pair? && Classify(block[j]).key == key))
              ==> KeyMap(block)[key] == Classify(block[i]).value
  {
    hide Classify;
    if block != [] {
      var n := |block| - 1;
      LastPairWins(block[..n], key);
      assert forall i :: 0 <= i < n ==> block[..n][i] == block[i];
      if Classify(block[n]).Pair? && Classify(block[n]).key == key {
      } else {
        forall i | 0 <= i < |block| && Classify(block[i]).Pair? && Classify(block[i]).key == key
          ensures i < n && Classify(block[..n][i]).key == key {
        }
      }
    }
  }

  // ---------------------------------------------------------------------------
  // Comments

  lemma {:induction false} FoldConcat(r: Reading, a: seq<string>, b: seq<string>)
    ensures Fold(r, a + b) == Fold(Fold(r, a), b)
  {
    if b == [] {
      assert a + b == a;
    } else {
      var n := |b| - 1;
      assert (a + b)[..|a + b| - 1] == a + b[..n];
      FoldConcat(r, a, b[..n]);
    }
  }

  /** Blank lines, comments and lines without meaning can be added anywhere. */
  lemma SilentLinesChangeNothing(a: seq<string>, line: string, b: seq<string>)
    requires !Classify(line).Header? && !Classify(line).Pair?
    ensures ReadAll(a + [line] + b) == ReadAll(a + b)
  {
    FoldConcat(START, a + [line], b);
    FoldConcat(START, a, [line]);
    FoldConcat(START, a, b);
    assert [line][..0] == [];
    assert Fold(Fold(START, a), [line]) == Step(Fold(START, a), line);
  }

  // ---------------------------------------------------------------------------
  // Printing

  datatype Section = Section(name: string, pairs: seq<(string, string)>)

  /** A pair whose line is read as that pair. */
  predicate WellFormedPair(key: string, value: string) {
    var line := key + "=" + value;
    && '=' !in key
    && line[0] != ';' && line[0] != '#'
    && !(line[0] == '[' && line[|line| - 1] == ']')
  }

  lemma PairLineReadsIff(key: string, value: string)
    ensures Classify(key + "=" + value) == Pair(key, value) <==> WellFormedPair(key, value)
  {
    var line := key + "=" + value;
    if '=' !in key {
      FindIs(line, '=', |key|);
      assert line[..|key|] == key && line[|key| + 1..] == value;
    } else {
      var i := Find(line, '=', 0);
      var j :| 0 <= j < |key| && key[j] == '=';
      assert line[j] == '=' && i <= j;
      assert |line[..i]| < |key|;
    }
  }

  lemma HeaderLineReads(name: string)
    ensures Classify("[" + name + "]") == Header(name)
  {
    var line := "[" + name + "]";
    assert line[1..|line| - 1] == name;
  }

  function PrintPairs(pairs: seq<(string, string)>): seq<string> {
    if pairs == [] then []
    else PrintPairs(pairs[..|pairs| - 1]) + [pairs[|pairs| - 1].0 + "=" + pairs[|pairs| - 1].1]
  }

  function PairMap(pairs: seq<(string, string)>): Pairs {
    if pairs == [] then map[] else PairMap(pairs[..|pairs| - 1])[pairs[|pairs| - 1].0 := pairs[|pairs| - 1].1]
  }

  function Print(sections: seq<Section>): seq<string> {
    if sections == [] then []
    else
      var s := sections[|sections| - 1];
      Print(sections[..|sections| - 1]) + (["[" + s.name + "]"] + PrintPairs(s.pairs))
  }

  function SectionMap(sections: seq<Section>): map<string, Pairs> {
    if sections == [] then map[]
    else
      var s := sections[|sections| - 1];
      SectionMap(sections[..|sections| - 1])[s.name := PairMap(s.pairs)]
  }

  predicate WellFormed(sections: seq<Section>) {
    forall i :: 0 <= i < |sections| ==> sections[i].name != "" && WellFormedPairs(sections[i].pairs)
  }

  predicate WellFormedPairs(pairs: seq<(string, string)>) {
    forall j :: 0 <= j < |pairs| ==> WellFormedPair(pairs[j].0, pairs[j].1)
  }

  lemma {:induction false} PairsAreRead(r: Reading, pairs: seq<(string, string)>)
    requires WellFormedPairs(pairs) && r.pairs == map[]
    ensures Fold(r, PrintPairs(pairs)) == r.(pairs := PairMap(pairs))
  {
    if pairs != [] {
      var n := |pairs| - 1;
      PairsAreRead(r, pairs[..n]);
      PairLineReadsIff(pairs[n].0, pairs[n].1);
      hide Classify;
      var lines := PrintPairs(pairs[..n]);
      assert PrintPairs(pairs)[..|lines|] == lines;
    }
  }

  /** Printing well-formed sections and reading the lines gives the map back, whatever the order of the sections. */
  lemma {:induction false} PrintThenRead(sections: seq<Section>)
    requires WellFormed(sections)
    ensures ReadAll(Print(sections)) == SectionMap(sections)
  {
    if sections != [] {
      var n := |sections| - 1;
      var s := sections[n];
      PrintThenRead(sections[..n]);
      var before := Fold(START, Print(sections[..n]));
      var header := "[" + s.name + "]";
      HeaderLineReads(s.name);
      FoldConcat(START, Print(sections[..n]), [header] + PrintPairs(s.pairs));
      FoldConcat(before, [header], PrintPairs(s.pairs));
      assert [header][..0] == [];
      assert Fold(before, [header]) == Step(before, header);
      PairsAreRead(Step(before, header), s.pairs);
    }
  }

  /** `getline` over a text: pieces between line ends, without an empty last one. */
  function Lines(text: string): seq<string> {
    var parts := Split(text, '\n');
    if parts[|parts| - 1] == "" then parts[..|parts| - 1] else parts
  }

  /** Lines written with a line end after each are read as the same lines. */
  lemma TextRoundTrip(lines: seq<string>)
    requires forall i :: 0 <= i < |lines| ==> '\n' !in lines[i]
    ensures Lines(Join(lines + [""], '\n')) == lines
  {
    JoinThenSplit(lines + [""], '\n');
    assert (lines + [""])[..|lines|] == lines;
  }

  predicate OneLine(s: string) { '\n' !in s }

  /** No name, key or value goes over the end of a line. */
  predicate OnOneLine(sections: seq<Section>) {
    forall i :: 0 <= i < |sections| ==>
      OneLine(sections[i].name)
      && forall j :: 0 <= j < |sections[i].pairs| ==> OneLine(sections[i].pairs[j].0) && OneLine(sections[i].pairs[j].1)
  }

  lemma {:induction false} PrintedPairsAreLines(pairs: seq<(string, string)>)
    requires forall j :: 0 <= j < |pairs| ==> OneLine(pairs[j].0) && OneLine(pairs[j].1)
    ensures forall line :: line in PrintPairs(pairs) ==> OneLine(line)
  {
    if pairs != [] {
      PrintedPairsAreLines(pairs[..|pairs| - 1]);
    }
  }

  lemma {:induction false} PrintedSectionsAreLines(sections: seq<Section>)
    requires OnOneLine(sections)
    ensures forall line :: line in Print(sections) ==> OneLine(line)
  {
    if sections != [] {
      var s := sections[|sections| - 1];
      PrintedSectionsAreLines(sections[..|sections| - 1]);
      PrintedPairsAreLines(s.pairs);
      assert OneLine("[" + s.name + "]");
    }
  }

  /** The text of well-formed sections, read as a file, gives their map back. */
  lemma PrintedTextIsRead(sections: seq<Section>)
    requires WellFormed(sections) && OnOneLine(sections)
    ensures ReadAll(Lines(Join(Print(sections) + [""], '\n'))) == SectionMap(sections)
  {
    PrintedSectionsAreLines(sections);
    var lines := Print(sections);
    assert forall i :: 0 <= i < |lines| ==> OneLine(lines[i]);
    TextRoundTrip(lines);
    PrintThenRead(sections);
  }

  /** In a text: empty lines, comments, and lines without `=` that are no headers. */
  ghost predicate Silent(line: string) {
    || line == "" || line[0] == ';' || line[0] == '#'
    || ('=' !in line && !(line[0] == '[' && line[|line| - 1] == ']'))
  }

  /** Such lines change nothing, wherever they are. */
  lemma SilentTextChangesNothing(a: seq<string>, line: string, b: seq<string>)
    requires Silent(line)
    ensures ReadAll(a + [line] + b) == ReadAll(a + b)
  {
    if line != "" && line[0] != ';' && line[0] != '#' {
      var i := Find(line, '=', 0);
      assert i < |line| ==> line[i] in line;
    }
    SilentLinesChangeNothing(a, line, b);
  }

  /** The last line counts also without a line end. */
  lemma LastLineNeedsNoEnd(lines: seq<string>)
    requires lines != [] && lines[|lines| - 1] != "" && forall i :: 0 <= i < |lines| ==> '\n' !in lines[i]
    ensures Lines(Join(lines, '\n')) == lines
  {
    JoinThenSplit(lines, '\n');
  }
}
