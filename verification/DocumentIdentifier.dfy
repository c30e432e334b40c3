/** The Busdox document identifier: a greedy pattern and the printer it must undo
    (as4/profiles/peppol/document_identifier.py). */
module DocumentIdentifier {
  import opened Terms

  const BUSDOX_DOCID_QNS := "busdox-docid-qns"

  datatype DocumentId = DocumentId(syntaxSpecificId: string, customizationId: string, version: string)

  /** identifier_value. */
  function Print(d: DocumentId): string {
    d.syntaxSpecificId + "##" + d.customizationId + "::" + d.version
  }

  /** The index of the first `::`, or the length when there is none. */
  function FirstColons(s: string): (n: nat)
    ensures n <= |s|
    ensures n < |s| ==> n + 2 <= |s|
  {
    if |s| < 2 then |s|
    else if s[0] == ':' && s[1] == ':' then 0
    else 1 + FirstColons(s[1..])
  }

  /** root_element_namespace: `split("::")[0]`. */
  function RootNamespace(d: DocumentId): string {
    d.syntaxSpecificId[..FirstColons(d.syntaxSpecificId)]
  }

  /** root_element_name: `split("::")[1]`, None for its IndexError. */
  function RootName(d: DocumentId): Option<string> {
    var n := FirstColons(d.syntaxSpecificId);
    if n == |d.syntaxSpecificId| then None
    else
      var rest := d.syntaxSpecificId[n + 2..];
      Some(rest[..FirstColons(rest)])
  }

  predicate ColonsAt(s: string, k: nat) {
    k + 2 <= |s| && s[k] == ':' && s[k + 1] == ':'
  }

  lemma {:induction false} FirstColonsAreFirst(s: string)
    ensures FirstColons(s) < |s| ==> ColonsAt(s, FirstColons(s))
    ensures forall k | 0 <= k < FirstColons(s) :: !ColonsAt(s, k)
  {
    if |s| >= 2 && !(s[0] == ':' && s[1] == ':') {
      FirstColonsAreFirst(s[1..]);
      forall k | 0 <= k < FirstColons(s)
        ensures !ColonsAt(s, k)
      {
        assert k > 0 ==> (ColonsAt(s, k) <==> ColonsAt(s[1..], k - 1));
      }
      assert ColonsAt(s[1..], FirstColons(s[1..])) ==> ColonsAt(s, FirstColons(s));
    }
  }

  /** The root's namespace is what stands before the first `::`, and its name what stands between that and the
      next one, or the end; without any there is no name. */
  lemma RootsAreSplit(d: DocumentId)
    ensures RootName(d).None? <==> forall k: nat | k < |d.syntaxSpecificId| :: !ColonsAt(d.syntaxSpecificId, k)
    ensures RootName(d).Some? ==>
              var id, n, name := d.syntaxSpecificId, |RootNamespace(d)|, RootName(d).value;
              && RootNamespace(d) <= id && ColonsAt(id, n) && (forall k | 0 <= k < n :: !ColonsAt(id, k))
              && var rest := id[n + 2..];
                 name <= rest && (name == rest || ColonsAt(rest, |name|))
                 && forall k | 0 <= k < |name| :: !ColonsAt(rest, k)
  {
    var id := d.syntaxSpecificId;
    FirstColonsAreFirst(id);
    if FirstColons(id) < |id| {
      FirstColonsAreFirst(id[FirstColons(id) + 2..]);
    }
  }

  // ---------------------------------------------------------------- the pattern

  /** A pattern is a sequence of captured runs (`.*`, greedy, newline-free) and literals. */
  datatype Item = AnyRun | Literal(text: string)

  const QNS_PATTERN := [AnyRun, Literal("##"), AnyRun, Literal("::"), AnyRun]

  /** Backtracking: the captured runs of the first match found, each run being tried longest first.
      Like `re.match`, a match may end before the input does. */
  function Match(items: seq<Item>, s: string): Option<seq<string>>
    decreases |items|, 0, 0
  {
    if items == [] then Some([])
    else
      match items[0]
      case Literal(text) => if text <= s then Match(items[1..], s[|text|..]) else None
      case AnyRun => MatchRun(items[1..], s, LineLength(s))
  }

  /** A captured run of at most `length` characters. */
  function MatchRun(items: seq<Item>, s: string, length: nat): Option<seq<string>>
    requires length <= |s|
    decreases |items|, 1, length
  {
    var rest := Match(items, s[length..]);
    if rest.Some? then Some([s[..length]] + rest.value)
    else if length == 0 then None
    else MatchRun(items, s, length - 1)
  }

  /** How far `.` reaches: up to the first newline. */
  function LineLength(s: string): (n: nat)
    ensures n <= |s|
    ensures '\n' !in s[..n]
    ensures n < |s| ==> s[n] == '\n'
  {
    if s == "" || s[0] == '\n' then 0
    else
      var n := LineLength(s[1..]);
      assert s[..n + 1] == [s[0]] + s[1..][..n];
      n + 1
  }

  lemma CapturedRuns(items: seq<Item>, s: string)
    ensures Match(items, s).Some? ==> |Match(items, s).value| == |Runs(items)|
    decreases |items|, 0, 0
  {
    if items != [] {
      match items[0]
      case Literal(text) =>
        if text <= s {
          CapturedRuns(items[1..], s[|text|..]);
        }
      case AnyRun => CapturedRunsFrom(items[1..], s, LineLength(s));
    }
  }

  lemma CapturedRunsFrom(items: seq<Item>, s: string, length: nat)
    requires length <= |s|
    ensures MatchRun(items, s, length).Some? ==> |MatchRun(items, s, length).value| == 1 + |Runs(items)|
    decreases |items|, 1, length
  {
    CapturedRuns(items, s[length..]);
    if length > 0 {
      CapturedRunsFrom(items, s, length - 1);
    }
  }

  function Runs(items: seq<Item>): seq<Item> {
    if items == [] then [] else (if items[0].AnyRun? then [items[0]] else []) + Runs(items[1..])
  }

  /** from_identifier_value: None stands for its ValueError. */
  function Parse(s: string): Option<DocumentId> {
    var groups := Match(QNS_PATTERN, s);
    CapturedRuns(QNS_PATTERN, s);
    if groups.Some? && |groups.value| == 3 && groups.value[0] != "" && groups.value[1] != ""
       && groups.value[2] != "" then
      Some(DocumentId(groups.value[0], groups.value[1], groups.value[2]))
    else None
  }

  // ---------------------------------------------------------------- the rightmost split

  /** The separators `##` and `::` are doubled characters. */
  predicate Doubled(s: string, i: int, c: char) {
    0 <= i <= |s| - 2 && s[i] == c && s[i + 1] == c
  }

  /** `##` at `i`, `::` at `j` behind it, with no later `##` that has a `::` behind it, and no later `::`. */
  ghost predicate SplitsAt(s: string, i: nat, j: nat) {
    && Doubled(s, i, '#')
    && Doubled(s, j, ':')
    && i + 2 <= j
    && (forall k, l :: i < k && k + 2 <= l && Doubled(s, k, '#') ==> !Doubled(s, l, ':'))
    && (forall l :: j < l ==> !Doubled(s, l, ':'))
  }

  function Line(s: string): string {
    s[..LineLength(s)]
  }

  lemma WholeLine(s: string)
    requires '\n' !in s
    ensures LineLength(s) == |s| && Line(s) == s
  {
  }

  lemma LastRun(s: string)
    requires '\n' !in s
    ensures Match([AnyRun], s) == Some([s])
  {
    WholeLine(s);
    assert Match([], s[|s|..]) == Some([]);
    assert [s[..|s|]] + [] == [s];
  }

  lemma AfterColons(s: string)
    requires '\n' !in s
    ensures Match([Literal("::"), AnyRun], s) == if Doubled(s, 0, ':') then Some([s[2..]]) else None
  {
    assert [Literal("::"), AnyRun][1..] == [AnyRun];
    assert "::" <= s <==> Doubled(s, 0, ':');
    if "::" <= s {
      LastRun(s[2..]);
    }
  }

  /** The middle run stops at the rightmost `::` in its reach. */
  lemma {:induction false} MiddleRun(s: string, length: nat) returns (j: int)
    requires '\n' !in s && length <= |s|
    ensures MatchRun([Literal("::"), AnyRun], s, length)
         == if j == -1 then None else if 0 <= j <= |s| - 2 then Some([s[..j], s[j + 2..]]) else None
    ensures j == -1 || (0 <= j <= length && Doubled(s, j, ':'))
    ensures forall l :: j < l <= length ==> !Doubled(s, l, ':')
    decreases length
  {
    AfterColons(s[length..]);
    if Doubled(s, length, ':') {
      assert s[length..][2..] == s[length + 2..];
      assert [s[..length]] + [s[length + 2..]] == [s[..length], s[length + 2..]];
      j := length;
    } else if length == 0 {
      j := -1;
    } else {
      j := MiddleRun(s, length - 1);
    }
  }

  lemma DoubledInSuffix(s: string, from: nat)
    requires from <= |s|
    ensures forall l, c :: l >= from ==> (Doubled(s, l, c) <==> Doubled(s[from..], l - from, c))
  {
  }

  lemma AfterHashes(s: string) returns (j: int)
    requires '\n' !in s
    ensures Match([Literal("##"), AnyRun, Literal("::"), AnyRun], s)
         == if j == -1 then None else if 2 <= j <= |s| - 2 then Some([s[2..j], s[j + 2..]]) else None
    ensures j == -1 || (2 <= j && Doubled(s, 0, '#') && Doubled(s, j, ':'))
    ensures Doubled(s, 0, '#') ==> forall l :: j < l && 2 <= l ==> !Doubled(s, l, ':')
  {
    var items := [Literal("##"), AnyRun, Literal("::"), AnyRun];
    assert items[1..] == [AnyRun, Literal("::"), AnyRun];
    assert items[1..][1..] == [Literal("::"), AnyRun];
    j := -1;
    assert "##" <= s <==> Doubled(s, 0, '#');
    if "##" <= s {
      var t := s[2..];
      WholeLine(t);
      var k := MiddleRun(t, |t|);
      DoubledInSuffix(s, 2);
      assert Match(items, s) == MatchRun([Literal("::"), AnyRun], t, |t|);
      if k != -1 {
        j := k + 2;
        assert t[..k] == s[2..j] && t[k + 2..] == s[j + 2..];
      }
    }
  }

  /** The first run stops at the rightmost `##` in its reach that has a `::` behind it. */
  lemma {:induction false} FirstRun(s: string, length: nat) returns (i: int, j: int)
    requires '\n' !in s && length <= |s|
    ensures MatchRun([Literal("##"), AnyRun, Literal("::"), AnyRun], s, length)
         == if i == -1 then None
            else if 0 <= i && i + 2 <= j <= |s| - 2 then Some([s[..i], s[i + 2..j], s[j + 2..]]) else None
    ensures i == -1 || (0 <= i <= length && i + 2 <= j && Doubled(s, i, '#') && Doubled(s, j, ':'))
    ensures i != -1 ==> forall l :: j < l ==> !Doubled(s, l, ':')
    ensures forall k, l :: i < k <= length && k + 2 <= l && Doubled(s, k, '#') ==> !Doubled(s, l, ':')
    decreases length
  {
    var t := s[length..];
    var k := AfterHashes(t);
    DoubledInSuffix(s, length);
    if k != -1 {
      i, j := length, length + k;
      assert t[2..k] == s[i + 2..j] && t[k + 2..] == s[j + 2..];
      assert [s[..i]] + [s[i + 2..j], s[j + 2..]] == [s[..i], s[i + 2..j], s[j + 2..]];
    } else {
      NoSplitHere(s, length);
      if length == 0 {
        i, j := -1, -1;
      } else {
        i, j := FirstRun(s, length - 1);
      }
    }
  }

  /** A suffix without `##` at its start and `::` behind it gives the input no such pair there. */
  lemma NoSplitHere(s: string, n: nat)
    requires n <= |s|
    requires Doubled(s[n..], 0, '#') ==> forall l :: 2 <= l ==> !Doubled(s[n..], l, ':')
    ensures Doubled(s, n, '#') ==> forall l :: n + 2 <= l ==> !Doubled(s, l, ':')
  {
    if Doubled(s, n, '#') {
      forall l | n + 2 <= l
        ensures !Doubled(s, l, ':')
      {
        assert !Doubled(s[n..], l - n, ':');
      }
    }
  }

  /** On one line the greedy pattern captures the rightmost split, and fails when there is none. */
  lemma PatternIsRightmostSplit(s: string) returns (i: int, j: int)
    requires '\n' !in s
    ensures i == -1 ==> Match(QNS_PATTERN, s).None? && forall k: nat, l: nat :: !SplitsAt(s, k, l)
    ensures i != -1 ==> 0 <= i && i + 2 <= j <= |s| - 2 && SplitsAt(s, i, j)
                        && Match(QNS_PATTERN, s) == Some([s[..i], s[i + 2..j], s[j + 2..]])
  {
    assert QNS_PATTERN[1..] == [Literal("##"), AnyRun, Literal("::"), AnyRun];
    WholeLine(s);
    i, j := FirstRun(s, |s|);
  }

  // ---------------------------------------------------------------- several lines

  ghost predicate OneLineLiterals(items: seq<Item>) {
    forall x :: x in items && x.Literal? ==> '\n' !in x.text
  }

  lemma {:induction false} LineLengthOfSuffix(s: string, n: nat)
    requires n <= LineLength(s)
    ensures LineLength(s[n..]) == LineLength(s) - n
  {
    if n == 0 {
      assert s[0..] == s;
    } else {
      LineLengthOfSuffix(s[1..], n - 1);
      assert s[1..][n - 1..] == s[n..];
    }
  }

  lemma LineOfSuffix(s: string, n: nat)
    requires n <= LineLength(s)
    ensures LineLength(s[n..]) == LineLength(s) - n
    ensures Line(s)[n..] == Line(s[n..])
  {
    LineLengthOfSuffix(s, n);
    assert s[..LineLength(s)][n..] == s[n..][..LineLength(s) - n];
  }

  lemma LineOfLine(s: string)
    ensures LineLength(Line(s)) == LineLength(s)
  {
    WholeLine(Line(s));
  }

  /** No pattern sees past the first newline. */
  lemma {:induction false} MatchIgnoresLaterLines(items: seq<Item>, s: string)
    requires OneLineLiterals(items)
    ensures Match(items, s) == Match(items, Line(s))
    decreases |items|, 0, 0
  {
    if items != [] {
      match items[0]
      case Literal(text) =>
        LiteralInLine(text, s);
        if text <= s {
          LineOfSuffix(s, |text|);
          MatchIgnoresLaterLines(items[1..], s[|text|..]);
        }
      case AnyRun =>
        LineOfLine(s);
        RunIgnoresLaterLines(items[1..], s, LineLength(s));
    }
  }

  lemma LiteralInLine(text: string, s: string)
    requires '\n' !in text
    ensures text <= s <==> text <= Line(s)
    ensures text <= s ==> |text| <= LineLength(s)
  {
    if LineLength(s) < |text| && |text| <= |s| {
      assert s[LineLength(s)] == '\n' && s[LineLength(s)] != text[LineLength(s)];
    }
  }

  lemma {:induction false} RunIgnoresLaterLines(items: seq<Item>, s: string, length: nat)
    requires OneLineLiterals(items) && length <= LineLength(s)
    ensures MatchRun(items, s, length) == MatchRun(items, Line(s), length)
    decreases |items|, 1, length
  {
    LineOfSuffix(s, length);
    MatchIgnoresLaterLines(items, s[length..]);
    assert Line(s)[..length] == s[..length];
    if length > 0 {
      RunIgnoresLaterLines(items, s, length - 1);
    }
  }

  // ---------------------------------------------------------------- parser and printer

  function PartsAt(s: string, i: nat, j: nat): DocumentId
    requires i + 2 <= j <= |s| - 2
  {
    DocumentId(s[..i], s[i + 2..j], s[j + 2..])
  }

  predicate AllParts(d: DocumentId) {
    d.syntaxSpecificId != "" && d.customizationId != "" && d.version != ""
  }

  lemma SplitIsUnique(s: string, i: nat, j: nat, k: nat, l: nat)
    requires SplitsAt(s, i, j) && SplitsAt(s, k, l)
    ensures i == k && j == l
  {
  }

  /** On every input: parsing takes the first line apart at its rightmost split, and succeeds exactly
      when there is one and its three parts are not empty. */
  lemma ParseIsRightmostSplit(s: string)
    ensures Parse(s).Some? <==> exists i: nat, j: nat :: SplitsAt(Line(s), i, j) && AllParts(PartsAt(Line(s), i, j))
    ensures forall i: nat, j: nat :: SplitsAt(Line(s), i, j) ==>
              Parse(s) == if AllParts(PartsAt(Line(s), i, j)) then Some(PartsAt(Line(s), i, j)) else None
  {
    MatchIgnoresLaterLines(QNS_PATTERN, s);
    var i, j := PatternIsRightmostSplit(Line(s));
    if i != -1 {
      forall k: nat, l: nat | SplitsAt(Line(s), k, l)
        ensures k == i && l == j
      {
        SplitIsUnique(Line(s), i, j, k, l);
      }
    }
  }

  lemma PartsRejoin(s: string, i: nat, j: nat)
    requires i + 2 <= j && Doubled(s, i, '#') && Doubled(s, j, ':')
    ensures Print(PartsAt(s, i, j)) == s
  {
    assert s[i..i + 2] == "##" && s[j..j + 2] == "::";
    assert s == s[..i] + s[i..i + 2] + s[i + 2..j] + s[j..j + 2] + s[j + 2..];
  }

  /** Printing what was parsed gives the first line back, hence any newline-free input. */
  lemma PrintUndoesParse(s: string)
    requires Parse(s).Some?
    ensures Print(Parse(s).value) == Line(s)
    ensures '\n' !in s ==> Print(Parse(s).value) == s
  {
    ParseIsRightmostSplit(s);
    var i: nat, j: nat :| SplitsAt(Line(s), i, j) && AllParts(PartsAt(Line(s), i, j));
    PartsRejoin(Line(s), i, j);
    if '\n' !in s {
      WholeLine(s);
    }
  }

  /** Where the characters of a printed triple are. */
  ghost predicate LaidOut(s: string, d: DocumentId) {
    var i := |d.syntaxSpecificId|;
    var j := i + 2 + |d.customizationId|;
    && |s| == j + 2 + |d.version|
    && s[..i] == d.syntaxSpecificId && s[i + 2..j] == d.customizationId && s[j + 2..] == d.version
    && Doubled(s, i, '#') && Doubled(s, j, ':')
    && (forall p :: 0 <= p < |d.customizationId| ==> s[i + 2 + p] == d.customizationId[p])
    && (forall p :: 0 <= p < |d.version| ==> s[j + 2 + p] == d.version[p])
  }

  lemma PrintIsLaidOut(d: DocumentId)
    ensures LaidOut(Print(d), d)
  {
  }

  predicate Contains(s: string, c: char) {
    exists i :: 0 <= i < |s| && Doubled(s, i, c)
  }

  predicate NoRivals(d: DocumentId)
    requires AllParts(d)
  {
    && d.customizationId[0] != '#' && !Contains(d.customizationId, '#')
    && d.version[0] != ':' && !Contains(d.version, ':')
  }

  lemma RivalsMoveTheSplit(s: string, d: DocumentId)
    requires LaidOut(s, d) && AllParts(d) && !NoRivals(d)
    ensures !SplitsAt(s, |d.syntaxSpecificId|, |d.syntaxSpecificId| + 2 + |d.customizationId|)
  {
    var i := |d.syntaxSpecificId|;
    var j := i + 2 + |d.customizationId|;
    if d.version[0] == ':' {
      assert Doubled(s, j + 1, ':');
    } else if Contains(d.version, ':') {
      var p :| 0 <= p < |d.version| && Doubled(d.version, p, ':');
      assert Doubled(s, j + 2 + p, ':');
    } else if d.customizationId[0] == '#' {
      assert Doubled(s, i + 1, '#') && i + 1 + 2 <= j;
    } else {
      var p :| 0 <= p < |d.customizationId| && Doubled(d.customizationId, p, '#');
      assert Doubled(s, i + 2 + p, '#') && i + 2 + p + 2 <= j;
    }
  }

  lemma SplitWithoutRivals(s: string, d: DocumentId)
    requires LaidOut(s, d) && AllParts(d) && NoRivals(d)
    ensures SplitsAt(s, |d.syntaxSpecificId|, |d.syntaxSpecificId| + 2 + |d.customizationId|)
  {
    var i := |d.syntaxSpecificId|;
    var j := i + 2 + |d.customizationId|;
    forall l | j < l
      ensures !Doubled(s, l, ':')
    {
      if Doubled(s, l, ':') && j + 2 <= l {
        assert Doubled(d.version, l - j - 2, ':');
      }
    }
    forall k, l | i < k && k + 2 <= l && Doubled(s, k, '#')
      ensures !Doubled(s, l, ':')
    {
      if k + 2 <= j && i + 2 <= k {
        assert Doubled(d.customizationId, k - i - 2, '#');
      }
    }
  }

  /** What a triple must satisfy to survive printing: no part empty or broken over lines, no `##` in or
      overlapping the start of the customization, no `::` in or overlapping the start of the version. */
  predicate Unambiguous(d: DocumentId) {
    && AllParts(d)
    && '\n' !in d.syntaxSpecificId && '\n' !in d.customizationId && '\n' !in d.version
    && NoRivals(d)
  }

  lemma RecoveredIsUnambiguous(d: DocumentId)
    requires Parse(Print(d)) == Some(d)
    ensures Unambiguous(d)
  {
    var s := Print(d);
    PrintIsLaidOut(d);
    ParseIsRightmostSplit(s);
    PrintUndoesParse(s);
    assert Line(s) == s && '\n' !in s;
    var k: nat, l: nat :| SplitsAt(s, k, l) && AllParts(PartsAt(s, k, l));
    PartsAreWhereTheyAre(s, d, k, l);
    if !NoRivals(d) {
      RivalsMoveTheSplit(s, d);
    }
    LinesOfParts(s, d);
  }

  lemma PartsAreWhereTheyAre(s: string, d: DocumentId, k: nat, l: nat)
    requires k + 2 <= l <= |s| - 2 && d == PartsAt(s, k, l)
    ensures k == |d.syntaxSpecificId| && l == k + 2 + |d.customizationId|
  {
    assert |s[..k]| == k && |s[k + 2..l]| == l - k - 2;
  }

  lemma LinesOfParts(s: string, d: DocumentId)
    requires LaidOut(s, d) && '\n' !in s
    ensures '\n' !in d.syntaxSpecificId && '\n' !in d.customizationId && '\n' !in d.version
  {
  }

  lemma UnambiguousIsRecovered(d: DocumentId)
    requires Unambiguous(d)
    ensures Parse(Print(d)) == Some(d)
  {
    var s := Print(d);
    PrintIsLaidOut(d);
    WholeLine(s);
    SplitWithoutRivals(s, d);
    ParseIsRightmostSplit(s);
    assert PartsAt(s, |d.syntaxSpecificId|, |d.syntaxSpecificId| + 2 + |d.customizationId|) == d;
  }

  /** Parsing what was printed gives the triple back exactly when the triple is unambiguous. */
  lemma ParseUndoesPrint(d: DocumentId)
    ensures Parse(Print(d)) == Some(d) <==> Unambiguous(d)
  {
    if Parse(Print(d)) == Some(d) {
      RecoveredIsUnambiguous(d);
    }
    if Unambiguous(d) {
      UnambiguousIsRecovered(d);
    }
  }

  /** A version with a separator of its own is not recovered. */
  lemma VersionWithColonsIsNotRecovered()
    ensures Parse(Print(DocumentId("a", "b", "c::d"))) == Some(DocumentId("a", "b::c", "d"))
  {
    var d := DocumentId("a", "b::c", "d");
    assert Print(DocumentId("a", "b", "c::d")) == Print(d);
    UnambiguousIsRecovered(d);
  }
}
