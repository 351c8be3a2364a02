/** Dropping whole lines by the flags of the line flagger. */
module StripLines {
  import opened FlagMeaning
  import opened Lexis
  import opened LineFlags
  import opened Text

  /** The lines from `i` on, without their terminators; a newline at the end starts no further line. */
  function Lines(s: string, i: nat): seq<string>
    requires i <= |s|
    decreases |s| - i
  {
    if i == |s| then []
    else
      var nl := LineEnd(s, i);
      if nl == |s| then [s[i..]] else [DropReturn(s[i..nl])] + Lines(s, nl + 1)
  }

  function DropReturn(line: string): string {
    if line != "" && line[|line| - 1] == '\r' then line[..|line| - 1] else line
  }

  function StripBom(body: string): string {
    if body != "" && body[0] == '\U{FEFF}' then body[1..] else body
  }

  /** Which lines stay, from line `k` on: line and flag number `k` go together, and the shorter list ends both. */
  function Kept(lines: seq<string>, flags: seq<bool>, k: nat, drop: string -> bool): (kept: seq<nat>)
    ensures forall j :: 0 <= j < |kept| ==> k <= kept[j] < |lines| && kept[j] < |flags|
    decreases |lines| - k
  {
    if k >= |lines| || k >= |flags| then []
    else if !flags[k] || !drop(lines[k]) then [k] + Kept(lines, flags, k + 1, drop)
    else Kept(lines, flags, k + 1, drop)
  }

  function Pick(lines: seq<string>, kept: seq<nat>): seq<string>
    requires forall j :: 0 <= j < |kept| ==> kept[j] < |lines|
  {
    if kept == [] then [] else [lines[kept[0]]] + Pick(lines, kept[1..])
  }

  /** The text without the top-level lines that `drop` accepts, as it is computed. */
  function StripTopLevelLines(body: string, drop: string -> bool): string {
    var s := StripBom(body);
    var lines, flags := Lines(s, 0), FlagsFrom(s, 0, Top);
    Join(Pick(lines, Kept(lines, flags, 0, drop)), "\n")
  }

  // ----- What is promised -----

  /** For each line: does it start outside every literal of the splitter? The first one does. */
  function StartFlags(s: string): seq<bool> { [true] + NewlineFlags(s, 0) }

  lemma {:induction false} LineCount(s: string, i: nat)
    requires i <= |s|
    ensures |Lines(s, i)| == Newlines(s, i, |s|) + (if i < |s| && s[|s| - 1] != '\n' then 1 else 0)
    decreases |s| - i
  {
    if i < |s| {
      var nl := LineEnd(s, i);
      LineHasNoNewline(s, i);
      NewlinesAdd(s, i, nl, |s|);
      if nl < |s| { LineCount(s, nl + 1); } else { LastOfLine(s, i); }
    }
  }

  lemma {:induction false} LastOfLine(s: string, i: nat)
    requires i < |s| && LineEnd(s, i) == |s|
    ensures s[|s| - 1] != '\n'
    decreases |s| - i
  {
    if i + 1 < |s| { LastOfLine(s, i + 1); }
  }

  /** Does line `j` fare the same under `f`, which may be too short, and under `g`? */
  predicate FaresSame(lines: seq<string>, f: seq<bool>, g: seq<bool>, drop: string -> bool, j: nat)
    requires j < |lines| <= |g|
  {
    if j < |f| then drop(lines[j]) ==> f[j] == g[j] else drop(lines[j]) && g[j]
  }

  lemma {:induction false} KeptSameIff(lines: seq<string>, f: seq<bool>, g: seq<bool>, k: nat, drop: string -> bool)
    requires k <= |lines| <= |g|
    ensures Kept(lines, f, k, drop) == Kept(lines, g, k, drop)
            <==> forall j :: k <= j < |lines| ==> FaresSame(lines, f, g, drop, j)
    decreases |lines| - k
  {
    hide Kept, FaresSame, Stays;
    if k < |lines| {
      KeptSameIff(lines, f, g, k + 1, drop);
      KeptTurn(lines, f, k, drop);
      KeptTurn(lines, g, k, drop);
      ConsDecides(k, Kept(lines, f, k + 1, drop), Kept(lines, g, k + 1, drop));
      FareMeans(lines, f, g, drop, k);
    } else {
      NoneKept(lines, f, k, drop);
      NoneKept(lines, g, k, drop);
    }
  }

  /** Line `k` fares the same when it stays under both or under neither. */
  lemma FareMeans(lines: seq<string>, f: seq<bool>, g: seq<bool>, drop: string -> bool, k: nat)
    requires k < |lines| <= |g|
    ensures FaresSame(lines, f, g, drop, k) <==> Stays(lines, f, k, drop) == Stays(lines, g, k, drop)
    ensures (forall j :: k <= j < |lines| ==> FaresSame(lines, f, g, drop, j))
            <==> FaresSame(lines, f, g, drop, k) && forall j :: k + 1 <= j < |lines| ==> FaresSame(lines, f, g, drop, j)
  {
    assert FaresSame(lines, f, g, drop, k) <==> Stays(lines, f, k, drop) == Stays(lines, g, k, drop);
    hide FaresSame, Stays;
  }

  lemma NoneKept(lines: seq<string>, flags: seq<bool>, k: nat, drop: string -> bool)
    requires k >= |lines|
    ensures Kept(lines, flags, k, drop) == []
  {
  }

  predicate Stays(lines: seq<string>, flags: seq<bool>, k: nat, drop: string -> bool)
    requires k < |lines|
  {
    k < |flags| && (!flags[k] || !drop(lines[k]))
  }

  lemma KeptTurn(lines: seq<string>, flags: seq<bool>, k: nat, drop: string -> bool)
    requires k < |lines|
    ensures var rest := Kept(lines, flags, k + 1, drop);
            Kept(lines, flags, k, drop) == if Stays(lines, flags, k, drop) then [k] + rest else rest
  {
  }

  lemma ConsDecides(k: nat, a: seq<nat>, b: seq<nat>)
    requires forall j :: 0 <= j < |a| ==> k < a[j]
    requires forall j :: 0 <= j < |b| ==> k < b[j]
    ensures a != [k] + b && [k] + a != b && ([k] + a == [k] + b <==> a == b)
  {
    SamePrefix([k], a, b);
    assert ([k] + a)[0] == k && ([k] + b)[0] == k;
  }

  lemma {:induction false} KeptIs(lines: seq<string>, flags: seq<bool>, k: nat, drop: string -> bool, j: nat)
    requires k <= j < |lines|
    ensures j in Kept(lines, flags, k, drop) <==> Stays(lines, flags, j, drop)
    decreases j - k
  {
    KeptTurn(lines, flags, k, drop);
    if k < j { KeptIs(lines, flags, k + 1, drop, j); }
  }

  /**
   For every text: exactly the accepted lines are dropped that start outside every literal, exactly when
   each accepted line has a flag that says where it starts, and a line without a flag is such a line.
   */
  lemma StripIsRightIff(s: string, drop: string -> bool)
    ensures var lines, flags, starts := Lines(s, 0), FlagsFrom(s, 0, Top), StartFlags(s);
            && |lines| <= |starts|
            && (Kept(lines, flags, 0, drop) == Kept(lines, starts, 0, drop)
                <==> forall j :: 0 <= j < |lines| ==> FaresSame(lines, flags, starts, drop, j))
  {
    hide FlagsFrom, Lines, NewlineFlags, FaresSame, Kept;
    LineCount(s, 0);
    KeptSameIff(Lines(s, 0), FlagsFrom(s, 0, Top), StartFlags(s), 0, drop);
  }

  /** Where the splitter stands at the end of each line, but for the newlines that get no flag. */
  function EndFlags(s: string): seq<bool> { SeenFlags(s, 0) + [EndsOutside(s, 0)] }

  /**
   In the splitter's terms, when no stray `$` stands right before a quote or a comment: exactly the right
   lines are dropped exactly when each accepted line starts where the line end of its number stands,
   outside or inside, newlines in block comments and right after a stray `$` not being counted.
   */
  lemma StripIsRightInSplitterTerms(s: string, drop: string -> bool)
    requires KeepsPlace(s, 0)
    ensures var lines, starts := Lines(s, 0), StartFlags(s);
            && |lines| <= |starts|
            && (Kept(lines, FlagsFrom(s, 0, Top), 0, drop) == Kept(lines, starts, 0, drop)
                <==> forall j :: 0 <= j < |lines| ==> FaresSame(lines, EndFlags(s), starts, drop, j))
  {
    hide FlagsFrom, Kept, FaresSame, KeepsPlace, Lines, StartFlags, SeenFlags, EndsOutside;
    FlagsMean(s);
    assert FlagsFrom(s, 0, Top) == EndFlags(s);
    hide EndFlags;
    StripIsRightIff(s, drop);
  }

  /** How many lines have no flag: one for each lost newline, less one when a newline ends the text. */
  function LostLines(s: string): nat {
    if Lost(s, 0) > 0 && s != "" && s[|s| - 1] == '\n' then Lost(s, 0) - 1 else Lost(s, 0)
  }

  lemma NothingLost(s: string)
    ensures Lost(s, 0) > 0 ==> s != ""
  {
  }

  /**
   Exactly the last lines, as many as have no flag, are dropped whatever they say; any other line is
   dropped exactly when it is accepted and the splitter is outside every literal at its line end.
   */
  lemma LastLinesLost(s: string, drop: string -> bool, j: nat)
    requires KeepsPlace(s, 0) && j < |Lines(s, 0)|
    ensures LostLines(s) <= |Lines(s, 0)|
    ensures j < |Lines(s, 0)| - LostLines(s) ==> j < |EndFlags(s)|
    ensures j in Kept(Lines(s, 0), FlagsFrom(s, 0, Top), 0, drop)
            <==> j < |Lines(s, 0)| - LostLines(s) && !(EndFlags(s)[j] && drop(Lines(s, 0)[j]))
  {
    hide FlagsFrom, KeepsPlace, Lines, Lost, Kept, SeenFlags, EndsOutside, Newlines;
    NothingLost(s);
    FlagsMean(s);
    LineCount(s, 0);
    KeptIs(Lines(s, 0), FlagsFrom(s, 0, Top), 0, drop, j);
  }

  // ----- Two texts -----

  const DATA := "'\n--@x'"

  /** The second line is data inside a literal, and it is dropped. */
  lemma DataLineDropped(drop: string -> bool)
    requires drop("--@x'") && !drop("'")
    ensures StripTopLevelLines(DATA, drop) == "'" && NewlineFlags(DATA, 0) == [false]
  {
    DataLines();
    DataFlags();
    DataIsInside();
    hide FlagsFrom, Lines, NewlineFlags;
    var lines, flags := ["'", "--@x'"], [false, true];
    assert Kept(lines, flags, 1, drop) == [];
    assert Kept(lines, flags, 0, drop) == [0];
    assert Pick(lines, [0]) == ["'"];
  }

  lemma DataLines()
    ensures StripBom(DATA) == DATA && Lines(DATA, 0) == ["'", "--@x'"]
  {
    var s := DATA;
    assert LineEnd(s, 0) == LineEnd(s, 1) == 1;
    assert LineEnd(s, 2) == LineEnd(s, 4) == LineEnd(s, 6) == LineEnd(s, 7) == 7;
    assert s[0..1] == "'" && s[2..] == "--@x'";
    assert Lines(s, 2) == ["--@x'"];
  }

  lemma {:induction false} PlainInside(s: string, i: nat, j: nat, q: char)
    requires i <= j <= |s| && forall k :: i <= k < j ==> s[k] != '\n' && s[k] != q
    ensures FlagsFrom(s, i, InQuote(q)) == FlagsFrom(s, j, InQuote(q))
    ensures QuotedEnd(s, i, q, Standard) == QuotedEnd(s, j, q, Standard)
    decreases j - i
  {
    if i < j { PlainInside(s, i + 1, j, q); }
  }

  lemma DataFlags()
    ensures FlagsFrom(DATA, 0, Top) == [false, true]
  {
    var s, q := DATA, '\'';
    PlainInside(s, 2, 6, q);
    hide QuotedEnd;
    assert FlagsFrom(s, 6, InQuote(q)) == FlagsFrom(s, 7, Top) == [true];
    assert FlagsFrom(s, 0, Top) == FlagsFrom(s, 1, InQuote(q)) == [false] + [true];
  }

  lemma DataIsInside()
    ensures NewlineFlags(DATA, 0) == [false]
  {
    var s, q := DATA, '\'';
    PlainInside(s, 2, 6, q);
    NoNewlines(s, 2, 7);
    hide FlagsFrom;
    assert QuotedEnd(s, 6, q, Standard) == 7;
    assert QuotedEnd(s, 1, q, Standard) == QuotedEnd(s, 2, q, Standard);
    assert ElementAt(s, 0, Standard) == Element(Quoted, 7);
    hide ElementAt, QuotedEnd;
    assert Newlines(s, 0, 7) == Newlines(s, 1, 7) == 1;
    assert NewlineFlags(s, 7) == [];
    assert NewlineFlags(s, 0) == Repeat(false, 1) + [];
  }

  const SCRIPT := "/*\n*/\nx"

  /** The comment's newline has no flag, and the last line, the only code, is gone. */
  lemma CodeLost(drop: string -> bool)
    requires !drop("/*") && !drop("*/")
    ensures StripTopLevelLines(SCRIPT, drop) == "/*\n*/"
  {
    ScriptLines();
    ScriptFlags();
    hide FlagsFrom, Lines;
    var lines, flags := ["/*", "*/", "x"], [true, true];
    assert Kept(lines, flags, 1, drop) == [1];
    assert Kept(lines, flags, 0, drop) == [0, 1];
    assert [0, 1][1..] == [1];
    assert Pick(lines, [1]) == ["*/"];
    assert Pick(lines, [0, 1]) == ["/*", "*/"];
    assert ["/*", "*/"][1..] == ["*/"];
    assert Join(["/*", "*/"], "\n") == "/*" + "\n" + "*/";
  }

  lemma ScriptLines()
    ensures StripBom(SCRIPT) == SCRIPT && Lines(SCRIPT, 0) == ["/*", "*/", "x"]
  {
    var s := SCRIPT;
    assert LineEnd(s, 0) == LineEnd(s, 2) == 2;
    assert LineEnd(s, 3) == LineEnd(s, 5) == 5;
    assert LineEnd(s, 6) == LineEnd(s, 7) == 7;
    assert s[0..2] == "/*" && s[3..5] == "*/" && s[6..] == "x";
    assert Lines(s, 6) == ["x"];
    assert Lines(s, 3) == ["*/"] + ["x"];
  }

  lemma ScriptFlags()
    ensures FlagsFrom(SCRIPT, 0, Top) == [true, true]
  {
    var s := SCRIPT;
    assert BlockEnd(s, 2) == BlockEnd(s, 3) == 5;
    assert FlagsFrom(s, 6, Top) == FlagsFrom(s, 7, Top) == [true];
    assert FlagsFrom(s, 0, Top) == FlagsFrom(s, 5, Top) == [true] + [true];
  }
}
