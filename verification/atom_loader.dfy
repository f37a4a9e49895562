/**
 * The text side of the molecule loader (PBRApp/src/AtomLoader.cpp): the
 * attribute lookup on one XML line, the scan that locates the `<scheme>`
 * sections of the XML file, the three passes that build the atom templates,
 * and the pass that reads ATOM records of a PDB file.
 *
 * Files are given as their sequence of lines (`None` when the file cannot be
 * opened), and the conversion of a field to a number is a caller-supplied
 * `Parsers` value: the model fixes which text is converted, not how.
 */
module AtomLoader {
  import opened Common

  // ---------------------------------------------------------------------
  // Searching text
  // ---------------------------------------------------------------------

  /** `s._Starts_with(prefix)` */
  predicate StartsWith(s: string, prefix: string)
  {
    |prefix| <= |s| && s[..|prefix|] == prefix
  }

  /** `pat` occurs in `s` starting at index `i`. */
  predicate OccursAt(s: string, pat: string, i: nat)
  {
    i + |pat| <= |s| && s[i..i + |pat|] == pat
  }

  /**
   * `s.find(pat, from)`: the first index at or after `from` where `pat`
   * occurs, `None` standing for `npos`. That nothing is skipped is
   * `FindSkipsNoOccurrence`.
   */
  function Find(s: string, pat: string, from: nat): (r: Option<nat>)
    ensures r.Some? ==> from <= r.value && OccursAt(s, pat, r.value)
    decreases |s| - from
  {
    if |s| < from + |pat| then None
    else if s[from..from + |pat|] == pat then Some(from)
    else Find(s, pat, from + 1)
  }

  /** `find` skips no occurrence: none lies before the reported index, and none at all when it reports `npos`. */
  lemma {:induction false} FindSkipsNoOccurrence(s: string, pat: string, from: nat)
    ensures Find(s, pat, from).Some? ==> forall j :: from <= j < Find(s, pat, from).value ==> !OccursAt(s, pat, j)
    ensures Find(s, pat, from).None? ==> forall j :: from <= j ==> !OccursAt(s, pat, j)
    decreases |s| - from
  {
    if |s| >= from + |pat| && s[from..from + |pat|] != pat {
      FindSkipsNoOccurrence(s, pat, from + 1);
    }
  }

  /** An occurrence with none before it (from `from` on) is what `Find` reports. */
  lemma {:induction false} FindReportsFirstOccurrence(s: string, pat: string, from: nat, i: nat)
    requires from <= i && OccursAt(s, pat, i)
    requires forall j :: from <= j < i ==> !OccursAt(s, pat, j)
    ensures Find(s, pat, from) == Some(i)
    decreases i - from
  {
    if from < i {
      assert !OccursAt(s, pat, from);
      FindReportsFirstOccurrence(s, pat, from + 1, i);
    }
  }

  /** The double quote that delimits XML attribute values. */
  const QUOTE: char := '"'

  /**
   * `FindPropertyInXMLLine(line, prop)`: the first occurrence of `prop=`
   * anywhere in the line (not only at an attribute-name boundary); the value
   * starts two characters after it, blindly skipping `=` and the character
   * assumed to be the opening quote, and runs to the next quote. Either
   * search failing gives the empty string.
   */
  function FindPropertyInXMLLine(line: string, prop: string): (r: string)
    ensures QUOTE !in r
    ensures (forall j :: !OccursAt(line, prop + "=", j)) ==> r == ""
    ensures r != "" ==> Find(line, prop + "=", 0).Some?
  {
    FindSkipsNoOccurrence(line, prop + "=", 0);
    match Find(line, prop + "=", 0)
    case None => ""
    case Some(i) => ValueFrom(line, i + |prop| + 2)
  }

  /** The text from `start` up to the next quote, or the empty string when no quote follows. */
  function ValueFrom(line: string, start: nat): (r: string)
    ensures QUOTE !in r
    ensures r != "" ==> Find(line, [QUOTE], start).Some?
  {
    match Find(line, [QUOTE], start)
    case None => ""
    case Some(e) =>
      FindSkipsNoOccurrence(line, [QUOTE], start);
      assert forall k :: start <= k < e ==> line[k] != QUOTE by {
        forall k | start <= k < e
          ensures line[k] != QUOTE
        {
          assert !OccursAt(line, [QUOTE], k);
        }
      }
      line[start..e]
  }

  /** An attribute written as `prop="v"`, with anything before and after it. */
  function Rendered(before: string, prop: string, v: string, after: string): string
  {
    before + prop + "=" + [QUOTE] + v + [QUOTE] + after
  }

  /** A single-character search stops at the first position holding that character. */
  lemma FindReportsFirstChar(s: string, c: char, from: nat, i: nat)
    requires from <= i < |s| && s[i] == c
    requires forall j :: from <= j < i ==> s[j] != c
    ensures Find(s, [c], from) == Some(i)
  {
    assert OccursAt(s, [c], i);
    forall j | from <= j < i
      ensures !OccursAt(s, [c], j)
    {
      assert s[j..j + 1][0] == s[j];
    }
    FindReportsFirstOccurrence(s, [c], from, i);
  }

  /**
   * Round trip: the value of an attribute rendered as `prop="v"` is read back
   * as `v`, provided `v` holds no quote and `prop=` does not occur earlier in
   * the line.
   */
  lemma FindPropertyReadsRenderedValue(before: string, prop: string, v: string, after: string)
    requires QUOTE !in v
    requires forall j :: 0 <= j < |before| ==> !OccursAt(Rendered(before, prop, v, after), prop + "=", j)
    ensures FindPropertyInXMLLine(Rendered(before, prop, v, after), prop) == v
  {
    RenderedValueEndsAtQuote(before, prop, v, after);
    RenderedPropertyIsFound(before, prop, v, after);
    ValueReadBack(Rendered(before, prop, v, after), prop, |before|, v);
  }

  /** With `prop=` first found at `i` and `v` running up to the next quote, `v` is read. */
  lemma ValueReadBack(line: string, prop: string, i: nat, v: string)
    requires Find(line, prop + "=", 0) == Some(i)
    requires Find(line, [QUOTE], i + |prop| + 2) == Some(i + |prop| + 2 + |v|)
    requires i + |prop| + 2 + |v| <= |line| && line[i + |prop| + 2..i + |prop| + 2 + |v|] == v
    ensures FindPropertyInXMLLine(line, prop) == v
  {
    ValueBetweenMatches(line, prop, i, i + |prop| + 2 + |v|);
  }

  /** With `prop=` first found at `i` and the next quote at `e`, the value is the text between. */
  lemma ValueBetweenMatches(line: string, prop: string, i: nat, e: nat)
    requires Find(line, prop + "=", 0) == Some(i)
    requires Find(line, [QUOTE], i + |prop| + 2) == Some(e)
    ensures i + |prop| + 2 <= e < |line|
    ensures FindPropertyInXMLLine(line, prop) == line[i + |prop| + 2..e]
  {
    ValueEndsAtQuote(line, i + |prop| + 2, e);
    ValueStartsAfterMatch(line, prop, i);
  }

  /** Once `prop=` is found at `i`, the value is read from two characters past it. */
  lemma ValueStartsAfterMatch(line: string, prop: string, i: nat)
    requires Find(line, prop + "=", 0) == Some(i)
    ensures FindPropertyInXMLLine(line, prop) == ValueFrom(line, i + |prop| + 2)
  {
    match Find(line, prop + "=", 0)
    case Some(i') =>
      assert i' == i;
  }

  /** A quote found at `e` closes the value read from `start`. */
  lemma ValueEndsAtQuote(line: string, start: nat, e: nat)
    requires Find(line, [QUOTE], start) == Some(e)
    ensures start <= e < |line|
    ensures ValueFrom(line, start) == line[start..e]
  {
  }

  /** The search for `prop=` in a rendered attribute stops at the attribute. */
  lemma RenderedPropertyIsFound(before: string, prop: string, v: string, after: string)
    requires forall j :: 0 <= j < |before| ==> !OccursAt(Rendered(before, prop, v, after), prop + "=", j)
    ensures Find(Rendered(before, prop, v, after), prop + "=", 0) == Some(|before|)
  {
    var line := Rendered(before, prop, v, after);
    var i := |before|;
    assert line == before + (prop + "=") + ([QUOTE] + v + [QUOTE] + after);
    assert line[i..i + |prop| + 1] == prop + "=";
    FindReportsFirstOccurrence(line, prop + "=", 0, i);
  }

  /** Two characters after `prop=` the rendered value starts, and the next quote closes it. */
  lemma RenderedValueEndsAtQuote(before: string, prop: string, v: string, after: string)
    requires QUOTE !in v
    ensures |before| + |prop| + 2 + |v| < |Rendered(before, prop, v, after)|
    ensures Find(Rendered(before, prop, v, after), [QUOTE], |before| + |prop| + 2) == Some(|before| + |prop| + 2 + |v|)
    ensures Rendered(before, prop, v, after)[|before| + |prop| + 2..|before| + |prop| + 2 + |v|] == v
  {
    var line := Rendered(before, prop, v, after);
    var head := before + prop + "=" + [QUOTE];
    var start := |head|;
    assert line == head + v + ([QUOTE] + after);
    forall j | start <= j < start + |v|
      ensures line[j] != QUOTE
    {
      assert line[j] == v[j - start];
    }
    FindReportsFirstChar(line, QUOTE, start, start + |v|);
    assert line[start..start + |v|] == v;
  }

  /** The match is not anchored: looking up `r` finds the tail of `number="6"`. */
  lemma UnanchoredMatchReadsAnotherAttribute()
    ensures FindPropertyInXMLLine("<atom number=\"6\"/>", "r") == "6"
  {
    var line := "<atom number=\"6\"/>";
    assert OccursAt(line, "r=", 11);
    forall j | 0 <= j < 11
      ensures !OccursAt(line, "r=", j)
    {
      assert line[j] != 'r';
      assert line[j..j + 2][0] == line[j];
    }
    assert "r" + "=" == "r=";
    FindReportsFirstOccurrence(line, "r=", 0, 11);
    FindReportsFirstChar(line, QUOTE, 14, 15);
    assert line[14..15] == "6";
  }

  /** The character after `=` is skipped whatever it is: `a=xy"` reads `y`. */
  lemma SkipsCharacterAfterEquals()
    ensures FindPropertyInXMLLine("a=xy\"", "a") == "y"
  {
    var line := "a=xy\"";
    FindReportsFirstOccurrence(line, "a=", 0, 0);
    FindReportsFirstChar(line, QUOTE, 3, 4);
  }

  /** A line ending right after `prop=` has no value. */
  lemma LineEndingAtEqualsHasNoValue(prop: string)
    ensures FindPropertyInXMLLine(prop + "=", prop) == ""
  {
    FindReportsFirstOccurrence(prop + "=", prop + "=", 0, 0);
  }

  // ---------------------------------------------------------------------
  // Locating the sections of the XML file
  // ---------------------------------------------------------------------

  /** The five `<scheme type="...">` sections the loader knows. */
  datatype Section = Atoms | Residues | ResiduesMapping | AtomsMapping | Radius

  /** A half-open range of line numbers (`std::pair<uint64_t, uint64_t>`). */
  datatype Range = Range(first: nat, second: nat)

  /** `FileMapping`: where each section's entries lie in the XML file. */
  datatype FileMapping = FileMapping(
    filepath: string,
    atoms: Range,
    atomsMapping: Range,
    residues: Range,
    residuesMapping: Range,
    radius: Range)
  {
    function Get(s: Section): Range
    {
      match s
      case Atoms => atoms
      case Residues => residues
      case ResiduesMapping => residuesMapping
      case AtomsMapping => atomsMapping
      case Radius => radius
    }

    /** The mapping with section `s` set to `r` (what `*end = ...` or `.first = ...` do). */
    function Set(s: Section, r: Range): (m: FileMapping)
      ensures m.filepath == filepath && m.Get(s) == r
      ensures forall o :: o != s ==> m.Get(o) == Get(o)
    {
      match s
      case Atoms => this.(atoms := r)
      case Residues => this.(residues := r)
      case ResiduesMapping => this.(residuesMapping := r)
      case AtomsMapping => this.(atomsMapping := r)
      case Radius => this.(radius := r)
    }
  }

  /** A value-initialised mapping: every range is (0, 0). */
  function EmptyMapping(xmlPath: string): (m: FileMapping)
    ensures m.filepath == xmlPath && forall s :: m.Get(s) == Range(0, 0)
  {
    FileMapping(xmlPath, Range(0, 0), Range(0, 0), Range(0, 0), Range(0, 0), Range(0, 0))
  }

  const SCHEME_PREFIX: string := "<scheme type="
  const SCHEME_CLOSE: string := "</scheme>"

  /** The type name written in a section's header. */
  function SchemeName(s: Section): string
  {
    match s
    case Atoms => "Atoms"
    case Residues => "Residues"
    case ResiduesMapping => "ResiduesMapping"
    case AtomsMapping => "AtomsMapping"
    case Radius => "Radius"
  }

  /** The prefix `<scheme type="Name"` that marks the header of section `s`. */
  function Header(s: Section): string
  {
    SCHEME_PREFIX + [QUOTE] + SchemeName(s) + [QUOTE]
  }

  /** What a line is to the section scan. */
  datatype LineKind = Plain | Known(section: Section) | Unknown

  /**
   * The header tests in source order: a line starting with `<scheme type=` is
   * the header of the first section whose full prefix it starts with, or an
   * unknown scheme.
   */
  function Classify(line: string): LineKind
  {
    if !StartsWith(line, SCHEME_PREFIX) then Plain
    else if StartsWith(line, Header(Atoms)) then Known(Atoms)
    else if StartsWith(line, Header(Residues)) then Known(Residues)
    else if StartsWith(line, Header(ResiduesMapping)) then Known(ResiduesMapping)
    else if StartsWith(line, Header(AtomsMapping)) then Known(AtomsMapping)
    else if StartsWith(line, Header(Radius)) then Known(Radius)
    else Unknown
  }

  /** The closing line is never mistaken for a header. */
  lemma CloseIsPlain()
    ensures Classify(SCHEME_CLOSE) == Plain
  {
    assert SCHEME_CLOSE[1] != SCHEME_PREFIX[1];
  }

  /**
   * The body of `PreProcessXML`'s loop from line `k` on: `target` is the
   * section the next `</scheme>` closes (the source's `end` pointer).
   */
  function Scan(lines: seq<string>, k: nat, acc: FileMapping, target: Option<Section>): (m: FileMapping)
    requires k <= |lines|
    ensures m.filepath == acc.filepath
    decreases |lines| - k
  {
    if k == |lines| then acc
    else
      match Classify(lines[k])
      case Unknown => acc
      case Known(s) => Scan(lines, k + 1, acc.Set(s, Range(k + 1, acc.Get(s).second)), Some(s))
      case Plain =>
        if lines[k] == SCHEME_CLOSE && target.Some? then
          var t := target.value;
          Scan(lines, k + 1, acc.Set(t, Range(acc.Get(t).first, k)), target)
        else
          Scan(lines, k + 1, acc, target)
  }

  /** The first line holding an unknown scheme header at or after `k`, or `|lines|`. */
  function StopFrom(lines: seq<string>, k: nat): (n: nat)
    requires k <= |lines|
    ensures k <= n <= |lines|
    ensures forall j :: k <= j < n ==> Classify(lines[j]) != Unknown
    ensures n < |lines| ==> Classify(lines[n]) == Unknown
    decreases |lines| - k
  {
    if k == |lines| || Classify(lines[k]) == Unknown then k else StopFrom(lines, k + 1)
  }

  /** Where the scan stops: the first unknown scheme header, or the end of the file. */
  function StopLine(lines: seq<string>): nat
  {
    StopFrom(lines, 0)
  }

  /** The section of the last header among the first `n` lines. */
  function OpenSection(lines: seq<string>, n: nat): Option<Section>
    requires n <= |lines|
  {
    if n == 0 then None
    else match Classify(lines[n - 1])
      case Known(s) => Some(s)
      case _ => OpenSection(lines, n - 1)
  }

  /** The last header of section `s` among the first `n` lines. */
  function LastHeader(lines: seq<string>, n: nat, s: Section): (h: Option<nat>)
    requires n <= |lines|
    ensures h.Some? <==> exists j :: 0 <= j < n && Classify(lines[j]) == Known(s)
    ensures h.Some? ==>
      && h.value < n
      && Classify(lines[h.value]) == Known(s)
      && forall j :: h.value < j < n ==> Classify(lines[j]) != Known(s)
  {
    if n == 0 then None
    else if Classify(lines[n - 1]) == Known(s) then Some(n - 1)
    else LastHeader(lines, n - 1, s)
  }

  /** The last `</scheme>` line among the first `n` lines that closes section `s`. */
  function LastClose(lines: seq<string>, n: nat, s: Section): (c: Option<nat>)
    requires n <= |lines|
    ensures c.Some? <==> exists j :: 0 <= j < n && lines[j] == SCHEME_CLOSE && OpenSection(lines, j) == Some(s)
    ensures c.Some? ==>
      && c.value < n
      && lines[c.value] == SCHEME_CLOSE
      && OpenSection(lines, c.value) == Some(s)
      && forall j :: c.value < j < n ==> !(lines[j] == SCHEME_CLOSE && OpenSection(lines, j) == Some(s))
  {
    if n == 0 then None
    else if lines[n - 1] == SCHEME_CLOSE && OpenSection(lines, n - 1) == Some(s) then Some(n - 1)
    else LastClose(lines, n - 1, s)
  }

  /**
   * The declarative reading of the scan over the first `n` lines: a section
   * starts after its last header and ends at the last `</scheme>` met while
   * it was the open section; both stay 0 when there is no such line.
   */
  function RangeBefore(lines: seq<string>, n: nat, s: Section): Range
    requires n <= |lines|
  {
    Range(
      match LastHeader(lines, n, s) case None => 0 case Some(h) => h + 1,
      match LastClose(lines, n, s) case None => 0 case Some(c) => c)
  }

  /** The scan's state after the first `k` lines agrees with the declarative reading. */
  ghost predicate ScanStateAt(lines: seq<string>, k: nat, acc: FileMapping, target: Option<Section>)
    requires k <= |lines|
  {
    && (forall s :: acc.Get(s) == RangeBefore(lines, k, s))
    && target == OpenSection(lines, k)
  }

  /** A known header line moves the scan state from line k to line k + 1. */
  lemma ScanStepHeader(lines: seq<string>, k: nat, acc: FileMapping, target: Option<Section>, s': Section)
    requires k < |lines| && Classify(lines[k]) == Known(s')
    requires ScanStateAt(lines, k, acc, target)
    ensures ScanStateAt(lines, k + 1, acc.Set(s', Range(k + 1, acc.Get(s').second)), Some(s'))
  {
    CloseIsPlain();
    var next := acc.Set(s', Range(k + 1, acc.Get(s').second));
    forall s
      ensures next.Get(s) == RangeBefore(lines, k + 1, s)
    {
      assert LastClose(lines, k + 1, s) == LastClose(lines, k, s);
    }
  }

  /** A `</scheme>` line with an open section moves the scan state to line k + 1. */
  lemma ScanStepClose(lines: seq<string>, k: nat, acc: FileMapping, t: Section)
    requires k < |lines| && Classify(lines[k]) == Plain && lines[k] == SCHEME_CLOSE
    requires ScanStateAt(lines, k, acc, Some(t))
    ensures ScanStateAt(lines, k + 1, acc.Set(t, Range(acc.Get(t).first, k)), Some(t))
  {
    var next := acc.Set(t, Range(acc.Get(t).first, k));
    forall s
      ensures next.Get(s) == RangeBefore(lines, k + 1, s)
    {
      assert LastHeader(lines, k + 1, s) == LastHeader(lines, k, s);
    }
  }

  /** Any other line before the stop leaves the scan state as it is. */
  lemma ScanStepPlain(lines: seq<string>, k: nat, acc: FileMapping, target: Option<Section>)
    requires k < |lines| && Classify(lines[k]) == Plain
    requires !(lines[k] == SCHEME_CLOSE && target.Some?)
    requires ScanStateAt(lines, k, acc, target)
    ensures ScanStateAt(lines, k + 1, acc, target)
  {
    forall s
      ensures acc.Get(s) == RangeBefore(lines, k + 1, s)
    {
      assert LastHeader(lines, k + 1, s) == LastHeader(lines, k, s);
      assert LastClose(lines, k + 1, s) == LastClose(lines, k, s);
    }
  }

  /** One line before the stop moves the scan state from line k to line k + 1. */
  lemma ScanStep(lines: seq<string>, k: nat, acc: FileMapping, target: Option<Section>)
      returns (next: FileMapping, target': Option<Section>)
    requires k < StopLine(lines)
    requires ScanStateAt(lines, k, acc, target)
    ensures ScanStateAt(lines, k + 1, next, target')
    ensures Scan(lines, k, acc, target) == Scan(lines, k + 1, next, target')
  {
    match Classify(lines[k])
    case Known(s') =>
      next, target' := acc.Set(s', Range(k + 1, acc.Get(s').second)), Some(s');
      ScanStepHeader(lines, k, acc, target, s');
    case Plain =>
      if lines[k] == SCHEME_CLOSE && target.Some? {
        next, target' := acc.Set(target.value, Range(acc.Get(target.value).first, k)), target;
        ScanStepClose(lines, k, acc, target.value);
      } else {
        next, target' := acc, target;
        ScanStepPlain(lines, k, acc, target);
      }
  }

  /** The forward scan computes the declarative ranges up to the stop line. */
  lemma {:induction false} ScanComputesRanges(lines: seq<string>, k: nat, acc: FileMapping, target: Option<Section>)
    requires k <= StopLine(lines)
    requires ScanStateAt(lines, k, acc, target)
    ensures forall s :: Scan(lines, k, acc, target).Get(s) == RangeBefore(lines, StopLine(lines), s)
    decreases |lines| - k
  {
    if k < StopLine(lines) {
      var next, target' := ScanStep(lines, k, acc, target);
      ScanComputesRanges(lines, k + 1, next, target');
    }
  }

  /**
   * `PreProcessXML(xmlPath)` over the file's lines (`None`: it cannot be
   * opened). Lines are numbered from 0; a known header at line h starts its
   * section at h + 1 and makes it the one later `</scheme>` lines close; an
   * unknown scheme type ends the scan with what was found so far.
   */
  function PreProcessXML(xmlPath: string, file: Option<seq<string>>): (m: FileMapping)
    ensures m.filepath == xmlPath
    ensures file.None? ==> forall s :: m.Get(s) == Range(0, 0)
    ensures file.Some? ==> forall s :: m.Get(s) == RangeBefore(file.value, StopLine(file.value), s)
  {
    match file
    case None => EmptyMapping(xmlPath)
    case Some(lines) =>
      ScanComputesRanges(lines, 0, EmptyMapping(xmlPath), None);
      Scan(lines, 0, EmptyMapping(xmlPath), None)
  }

  /** A section opened by no line before the stop keeps the range (0, 0). */
  lemma {:induction false} NeverOpenedMeansNeverClosed(lines: seq<string>, n: nat, s: Section)
    requires n <= |lines|
    requires LastHeader(lines, n, s).None?
    ensures forall j :: 0 <= j <= n ==> OpenSection(lines, j) != Some(s)
    ensures LastClose(lines, n, s).None?
  {
    if n > 0 {
      NeverOpenedMeansNeverClosed(lines, n - 1, s);
    }
  }

  /** A section whose header never appears before the stop line stays (0, 0). */
  lemma UnseenSectionStaysEmpty(xmlPath: string, lines: seq<string>, s: Section)
    requires forall j :: 0 <= j < StopLine(lines) ==> Classify(lines[j]) != Known(s)
    ensures PreProcessXML(xmlPath, Some(lines)).Get(s) == Range(0, 0)
  {
    NeverOpenedMeansNeverClosed(lines, StopLine(lines), s);
  }

  /**
   * Every section's header is recognised as that section, whatever follows
   * it: `Atoms"` is not a prefix of `AtomsMapping"`, nor `Residues"` of
   * `ResiduesMapping"`, because of the closing quote.
   */
  lemma HeaderIsRecognised(s: Section, rest: string)
    ensures Classify(Header(s) + rest) == Known(s)
  {
    var line := Header(s) + rest;
    assert line[..|Header(s)|] == Header(s);
    assert line[..|SCHEME_PREFIX|] == SCHEME_PREFIX;
    match s
    case Atoms =>
    case Residues =>
      assert line[14] != Header(Atoms)[14];
    case ResiduesMapping =>
      assert line[14] != Header(Atoms)[14];
      assert line[22] != Header(Residues)[22];
    case AtomsMapping =>
      assert line[19] != Header(Atoms)[19];
      assert line[14] != Header(Residues)[14];
      assert line[14] != Header(ResiduesMapping)[14];
    case Radius =>
      assert line[14] != Header(Atoms)[14];
      assert line[15] != Header(Residues)[15];
      assert line[15] != Header(ResiduesMapping)[15];
      assert line[14] != Header(AtomsMapping)[14];
  }

  /**
   * A small file: a stray `</scheme>`, an Atoms section of one line, a
   * section of unknown type, then a Radius section.
   */
  const UNKNOWN_SCHEME_FILE: seq<string> := [SCHEME_CLOSE, Header(Atoms) + ">", "<color id=\"1\"/>", SCHEME_CLOSE,
                                             "<scheme type=\"Bonds\">", Header(Radius) + ">", SCHEME_CLOSE]

  /** How the scan sees the lines of that file up to the unknown scheme, where it stops. */
  lemma UnknownSchemeFileLines()
    ensures Classify(UNKNOWN_SCHEME_FILE[0]) == Plain && UNKNOWN_SCHEME_FILE[0] == SCHEME_CLOSE
    ensures Classify(UNKNOWN_SCHEME_FILE[1]) == Known(Atoms)
    ensures Classify(UNKNOWN_SCHEME_FILE[2]) == Plain
    ensures Classify(UNKNOWN_SCHEME_FILE[3]) == Plain && UNKNOWN_SCHEME_FILE[3] == SCHEME_CLOSE
    ensures StopLine(UNKNOWN_SCHEME_FILE) == 4
  {
    var lines := UNKNOWN_SCHEME_FILE;
    CloseIsPlain();
    HeaderIsRecognised(Atoms, ">");
    assert Classify(lines[2]) == Plain by {
      assert lines[2][1] != SCHEME_PREFIX[1];
    }
    assert Classify(lines[4]) == Unknown by {
      assert StartsWith(lines[4], SCHEME_PREFIX);
      assert lines[4][14] == 'B';
    }
  }

  /**
   * A `</scheme>` before any header is ignored, and an unknown scheme type
   * ends the scan: the Radius section after it is never seen.
   */
  lemma UnknownSchemeEndsScan(xmlPath: string)
    ensures var m := PreProcessXML(xmlPath, Some(UNKNOWN_SCHEME_FILE));
            m.atoms == Range(2, 3) && m.radius == Range(0, 0) && m.residues == Range(0, 0)
  {
    var lines := UNKNOWN_SCHEME_FILE;
    UnknownSchemeFileLines();
    assert LastHeader(lines, 4, Atoms) == Some(1) by {
      assert LastHeader(lines, 2, Atoms) == Some(1);
    }
    assert LastClose(lines, 4, Atoms) == Some(3) by {
      assert OpenSection(lines, 3) == Some(Atoms);
    }
    UnseenSectionStaysEmpty(xmlPath, lines, Radius);
    UnseenSectionStaysEmpty(xmlPath, lines, Residues);
    var m := PreProcessXML(xmlPath, Some(lines));
    assert m.Get(Atoms) == RangeBefore(lines, 4, Atoms);
  }

  // ---------------------------------------------------------------------
  // Atom templates
  // ---------------------------------------------------------------------

  /**
   * How a field becomes a number (`std::stringstream >>`): supplied by the
   * caller. A field the stream cannot read gives whatever these return for it.
   */
  datatype Parsers = Parsers(toNat: string -> nat, toReal: string -> real)

  /** `AtomTemplate`: an element's colour and radius. */
  datatype AtomTemplate = AtomTemplate(color: Vec3, radius: real)

  /** A value-initialised `glm::vec3`. */
  const ZERO_COLOR: Vec3 := Vec3(0.0, 0.0, 0.0)

  /** Line `k` as `getline` hands it over after `GotoLine`; past the end of the file it is empty. */
  function LineAt(lines: seq<string>, k: nat): string
  {
    if k < |lines| then lines[k] else ""
  }

  /**
   * The lines a `for (i = r.first; i < r.second; ++i)` loop reads: within the
   * file, exactly the lines of the range; an inverted range reads none; a
   * line past the end reads as empty.
   */
  function SectionLines(lines: seq<string>, r: Range): (section: seq<string>)
    ensures |section| == if r.first <= r.second then r.second - r.first else 0
    ensures forall i :: 0 <= i < |section| ==> section[i] == LineAt(lines, r.first + i)
    ensures r.first <= r.second <= |lines| ==> section == lines[r.first..r.second]
    ensures r.second < r.first ==> section == []
    ensures forall i :: 0 <= i < |section| && |lines| <= r.first + i ==> section[i] == ""
  {
    seq(if r.first <= r.second then r.second - r.first else 0, i requires 0 <= i => LineAt(lines, r.first + i))
  }

  /**
   * A run of `m[key] = value` statements, one per line; `None` is a line that
   * writes nothing. Later writes to a key replace earlier ones.
   */
  function Collect<K(!new), V>(writes: seq<Option<(K, V)>>): (m: map<K, V>)
    ensures forall k :: k in m <==> exists i :: 0 <= i < |writes| && writes[i].Some? && writes[i].value.0 == k
    decreases |writes|
  {
    if |writes| == 0 then map[]
    else
      var earlier := Collect(writes[..|writes| - 1]);
      assert forall i :: 0 <= i < |writes| - 1 ==> writes[..|writes| - 1][i] == writes[i];
      match writes[|writes| - 1]
      case None => earlier
      case Some(kv) => earlier[kv.0 := kv.1]
  }

  /** The last write to a key is the value the map holds for it. */
  lemma {:induction false} CollectKeepsLastWrite<K(!new), V>(writes: seq<Option<(K, V)>>, i: nat, k: K, v: V)
    requires i < |writes| && writes[i] == Some((k, v))
    requires forall j :: i < j < |writes| && writes[j].Some? ==> writes[j].value.0 != k
    ensures k in Collect(writes) && Collect(writes)[k] == v
    decreases |writes|
  {
    if i < |writes| - 1 {
      var front := writes[..|writes| - 1];
      assert forall j :: 0 <= j < |front| ==> front[j] == writes[j];
      CollectKeepsLastWrite(front, i, k, v);
    }
  }

  /**
   * `m[key]` read through `operator[]`: a missing key reads as `absent`, the
   * value the lookup inserts for it.
   */
  function Lookup<K(!new), V>(m: map<K, V>, key: K, absent: V): (v: V)
    ensures key in m ==> v == m[key]
    ensures key !in m ==> v == absent
    ensures v == InsertMissing(m, [key], absent)[key]
  {
    if key in m then m[key] else absent
  }

  /** `LoadColorFromXMLLine`: the `r`, `g` and `b` attributes, in that order. */
  function LoadColorFromXMLLine(line: string, p: Parsers): Vec3
  {
    Vec3(p.toReal(FindPropertyInXMLLine(line, "r")),
         p.toReal(FindPropertyInXMLLine(line, "g")),
         p.toReal(FindPropertyInXMLLine(line, "b")))
  }

  /**
   * A line carrying `r="vr"`, `g="vg"` and `b="vb"`, each the first
   * occurrence of its `prop=`, is read as the colour of those three values.
   */
  lemma ColorOfRenderedChannels(line: string, p: Parsers,
                                br: string, vr: string, ar: string,
                                bg: string, vg: string, ag: string,
                                bb: string, vb: string, ab: string)
    requires line == Rendered(br, "r", vr, ar) && QUOTE !in vr
    requires forall j :: 0 <= j < |br| ==> !OccursAt(line, "r=", j)
    requires line == Rendered(bg, "g", vg, ag) && QUOTE !in vg
    requires forall j :: 0 <= j < |bg| ==> !OccursAt(line, "g=", j)
    requires line == Rendered(bb, "b", vb, ab) && QUOTE !in vb
    requires forall j :: 0 <= j < |bb| ==> !OccursAt(line, "b=", j)
    ensures LoadColorFromXMLLine(line, p) == Vec3(p.toReal(vr), p.toReal(vg), p.toReal(vb))
  {
    assert "r" + "=" == "r=" && "g" + "=" == "g=" && "b" + "=" == "b=";
    FindPropertyReadsRenderedValue(br, "r", vr, ar);
    FindPropertyReadsRenderedValue(bg, "g", vg, ag);
    FindPropertyReadsRenderedValue(bb, "b", vb, ab);
  }

  /** A line of the Atoms section: `colors[id] = color`. */
  function ColorWrite(line: string, p: Parsers): Option<(nat, Vec3)>
  {
    Some((p.toNat(FindPropertyInXMLLine(line, "id")), LoadColorFromXMLLine(line, p)))
  }

  /** A line of the Radius section: `radius[id] = r`. */
  function RadiusWrite(line: string, p: Parsers): Option<(nat, real)>
  {
    Some((p.toNat(FindPropertyInXMLLine(line, "id")), p.toReal(FindPropertyInXMLLine(line, "radius"))))
  }

  /**
   * A line of the AtomsMapping section: only a one-character identifier is
   * kept, mapped to the colour and radius filed under the line's `number`
   * (a number with no entry reads as zero).
   */
  function TemplateWrite(line: string, colors: map<nat, Vec3>, radius: map<nat, real>, p: Parsers): (w: Option<(char, AtomTemplate)>)
    ensures w.Some? <==> |FindPropertyInXMLLine(line, "identifier")| == 1
    ensures w.Some? ==>
      var number := p.toNat(FindPropertyInXMLLine(line, "number"));
      && [w.value.0] == FindPropertyInXMLLine(line, "identifier")
      && w.value.1 == AtomTemplate(Lookup(colors, number, ZERO_COLOR), Lookup(radius, number, 0.0))
  {
    var identifier := FindPropertyInXMLLine(line, "identifier");
    if |identifier| == 1 then
      var number := p.toNat(FindPropertyInXMLLine(line, "number"));
      Some((identifier[0], AtomTemplate(Lookup(colors, number, ZERO_COLOR), Lookup(radius, number, 0.0))))
    else None
  }

  /**
   * Whether `GotoLine(file, first)` leaves the shared stream failed: when it
   * already was (`seekg` clears eofbit but not failbit), or when it has to
   * skip more than one line past the end (the `ignore` at the end sets
   * eofbit, the one after it fails). Every line of the file is taken to end
   * with a newline.
   */
  predicate GotoFails(lines: seq<string>, first: nat, failed: bool)
  {
    failed || |lines| + 1 < first
  }

  /**
   * One pass of `LoadAtomTemplates` over its single `std::ifstream`:
   * `GotoLine(first)`, then one `getline` per index of `[first, second)`.
   * A `getline` at the end of the file fails the stream, and a failed stream
   * hands over only empty lines. Gives the lines read and whether the stream
   * is failed after the pass.
   */
  function ReadPass(lines: seq<string>, r: Range, failed: bool): (pass: (seq<string>, bool))
    ensures |pass.0| == |SectionLines(lines, r)|
    ensures !GotoFails(lines, r.first, failed) ==> pass.0 == SectionLines(lines, r)
    ensures GotoFails(lines, r.first, failed) ==> forall i :: 0 <= i < |pass.0| ==> pass.0[i] == ""
    ensures pass.1 <==> GotoFails(lines, r.first, failed) || (r.first < r.second && |lines| < r.second)
  {
    var section := SectionLines(lines, r);
    var fails := GotoFails(lines, r.first, failed);
    (if fails then seq(|section|, _ => "") else section, fails || (r.first < r.second && |lines| < r.second))
  }

  /** The lines the Atoms, Radius and AtomsMapping passes read. */
  datatype PassLines = PassLines(atoms: seq<string>, radius: seq<string>, atomsMapping: seq<string>)

  /**
   * The three passes in the order they run over the one stream: a pass
   * that fails the stream leaves every later pass reading empty lines.
   */
  function TemplatePasses(lines: seq<string>, m: FileMapping): PassLines
  {
    var atoms := ReadPass(lines, m.atoms, false);
    var radius := ReadPass(lines, m.radius, atoms.1);
    var atomsMapping := ReadPass(lines, m.atomsMapping, radius.1);
    PassLines(atoms.0, radius.0, atomsMapping.0)
  }

  /** A range whose pass leaves a good stream good: it starts at most one line past the end and reads no line past it. */
  predicate ReadsWithinFile(lines: seq<string>, r: Range)
  {
    r.first <= |lines| + 1 && (r.first < r.second ==> r.second <= |lines|)
  }

  /**
   * While the Atoms and Radius passes read within the file and the
   * AtomsMapping pass starts at most one line past its end, every pass reads
   * exactly the lines of its own range.
   */
  lemma PassesWithinFileReadSections(lines: seq<string>, m: FileMapping)
    requires ReadsWithinFile(lines, m.atoms) && ReadsWithinFile(lines, m.radius)
    requires m.atomsMapping.first <= |lines| + 1
    ensures TemplatePasses(lines, m)
      == PassLines(SectionLines(lines, m.atoms), SectionLines(lines, m.radius), SectionLines(lines, m.atomsMapping))
  {
  }

  /** Every range `PreProcessXML` finds in a file lies within it. */
  lemma PreProcessedRangesWithinFile(xmlPath: string, lines: seq<string>, s: Section)
    ensures PreProcessXML(xmlPath, Some(lines)).Get(s).first <= |lines|
    ensures PreProcessXML(xmlPath, Some(lines)).Get(s).second <= |lines|
  {
    var r := PreProcessXML(xmlPath, Some(lines)).Get(s);
    assert r == RangeBefore(lines, StopLine(lines), s);
  }

  /**
   * So the passes over a preprocessed file never fail the stream: each reads
   * exactly the lines of its section.
   */
  lemma PreProcessedPassesReadSections(xmlPath: string, lines: seq<string>)
    ensures var m := PreProcessXML(xmlPath, Some(lines));
      TemplatePasses(lines, m)
        == PassLines(SectionLines(lines, m.atoms), SectionLines(lines, m.radius), SectionLines(lines, m.atomsMapping))
  {
    var m := PreProcessXML(xmlPath, Some(lines));
    PreProcessedRangesWithinFile(xmlPath, lines, Atoms);
    PreProcessedRangesWithinFile(xmlPath, lines, Radius);
    PreProcessedRangesWithinFile(xmlPath, lines, AtomsMapping);
    assert m.atoms == m.Get(Atoms) && m.radius == m.Get(Radius) && m.atomsMapping == m.Get(AtomsMapping);
    PassesWithinFileReadSections(lines, m);
  }

  /** An empty line names no property. */
  lemma EmptyLineHasNoProperty(prop: string)
    ensures FindPropertyInXMLLine("", prop) == ""
  {
    forall j: nat ensures !OccursAt("", prop + "=", j) {
      assert |prop + "="| > 0;
    }
  }

  /**
   * An Atoms range that runs past the end of the file fails the stream for
   * good: the Radius and AtomsMapping passes read only empty lines, and no
   * element gets a template, whatever the file holds.
   */
  lemma AtomsOverrunLoadsNoTemplates(m: FileMapping, lines: seq<string>, p: Parsers)
    requires m.atoms.first < m.atoms.second && |lines| < m.atoms.second
    ensures forall i :: 0 <= i < |TemplatePasses(lines, m).radius| ==> TemplatePasses(lines, m).radius[i] == ""
    ensures forall i :: 0 <= i < |TemplatePasses(lines, m).atomsMapping| ==> TemplatePasses(lines, m).atomsMapping[i] == ""
    ensures LoadAtomTemplates(m, Some(lines), p) == map[]
  {
    var mapping := TemplatePasses(lines, m).atomsMapping;
    var templates := LoadAtomTemplates(m, Some(lines), p);
    EmptyLineHasNoProperty("identifier");
    forall line | line in mapping
      ensures FindPropertyInXMLLine(line, "identifier") == ""
    {
      var i :| 0 <= i < |mapping| && mapping[i] == line;
    }
    assert templates.Keys == {};
  }

  /**
   * The file of one line `identifier="C"` read with the Atoms range (0, 2):
   * the Atoms pass fails the stream, so the AtomsMapping range (0, 1) that
   * covers the line files no template for 'C'.
   */
  lemma OverrunHidesMappingLine(p: Parsers)
    ensures var m := EmptyMapping("f.xml").(atoms := Range(0, 2), atomsMapping := Range(0, 1));
      && FindPropertyInXMLLine("identifier=\"C\"", "identifier") == "C"
      && SectionLines(["identifier=\"C\""], m.atomsMapping) == ["identifier=\"C\""]
      && 'C' !in LoadAtomTemplates(m, Some(["identifier=\"C\""]), p)
  {
    var m := EmptyMapping("f.xml").(atoms := Range(0, 2), atomsMapping := Range(0, 1));
    FindPropertyReadsRenderedValue("", "identifier", "C", "");
    assert Rendered("", "identifier", "C", "") == "identifier=\"C\"";
    AtomsOverrunLoadsNoTemplates(m, ["identifier=\"C\""], p);
  }

  /** The writes of the Atoms pass, one per line read. */
  function ColorWrites(section: seq<string>, p: Parsers): (ws: seq<Option<(nat, Vec3)>>)
    ensures |ws| == |section|
    ensures forall i :: 0 <= i < |ws| ==> ws[i] == ColorWrite(section[i], p)
  {
    seq(|section|, i requires 0 <= i < |section| => ColorWrite(section[i], p))
  }

  /** The writes of the Radius pass, one per line read. */
  function RadiusWrites(section: seq<string>, p: Parsers): (ws: seq<Option<(nat, real)>>)
    ensures |ws| == |section|
    ensures forall i :: 0 <= i < |ws| ==> ws[i] == RadiusWrite(section[i], p)
  {
    seq(|section|, i requires 0 <= i < |section| => RadiusWrite(section[i], p))
  }

  /** The colours by id that the Atoms pass files: an id has a colour exactly when some line read carries it. */
  function ColorsById(section: seq<string>, p: Parsers): (colors: map<nat, Vec3>)
    ensures forall id :: id in colors <==> exists line :: line in section && p.toNat(FindPropertyInXMLLine(line, "id")) == id
  {
    var ws := ColorWrites(section, p);
    assert forall id :: id in Collect(ws) <==>
      exists line :: line in section && p.toNat(FindPropertyInXMLLine(line, "id")) == id by {
      forall id | id in Collect(ws)
        ensures exists line :: line in section && p.toNat(FindPropertyInXMLLine(line, "id")) == id
      {
        var i :| 0 <= i < |ws| && ws[i].Some? && ws[i].value.0 == id;
        assert section[i] in section;
      }
      forall id, line | line in section && p.toNat(FindPropertyInXMLLine(line, "id")) == id
        ensures id in Collect(ws)
      {
        var i :| 0 <= i < |section| && section[i] == line;
        assert ws[i].Some? && ws[i].value.0 == id;
      }
    }
    Collect(ws)
  }

  /** The radii by id that the Radius pass files: an id has a radius exactly when some line read carries it. */
  function RadiiById(section: seq<string>, p: Parsers): (radius: map<nat, real>)
    ensures forall id :: id in radius <==> exists line :: line in section && p.toNat(FindPropertyInXMLLine(line, "id")) == id
  {
    var ws := RadiusWrites(section, p);
    assert forall id :: id in Collect(ws) <==>
      exists line :: line in section && p.toNat(FindPropertyInXMLLine(line, "id")) == id by {
      forall id | id in Collect(ws)
        ensures exists line :: line in section && p.toNat(FindPropertyInXMLLine(line, "id")) == id
      {
        var i :| 0 <= i < |ws| && ws[i].Some? && ws[i].value.0 == id;
        assert section[i] in section;
      }
      forall id, line | line in section && p.toNat(FindPropertyInXMLLine(line, "id")) == id
        ensures id in Collect(ws)
      {
        var i :| 0 <= i < |section| && section[i] == line;
        assert ws[i].Some? && ws[i].value.0 == id;
      }
    }
    Collect(ws)
  }

  /** Later Atoms lines win: an id's colour is that of the last line read carrying the id. */
  lemma LastColorLineWins(section: seq<string>, p: Parsers, i: nat)
    requires i < |section|
    requires forall j :: i < j < |section| ==>
      p.toNat(FindPropertyInXMLLine(section[j], "id")) != p.toNat(FindPropertyInXMLLine(section[i], "id"))
    ensures p.toNat(FindPropertyInXMLLine(section[i], "id")) in ColorsById(section, p)
    ensures ColorsById(section, p)[p.toNat(FindPropertyInXMLLine(section[i], "id"))] == LoadColorFromXMLLine(section[i], p)
  {
    CollectKeepsLastWrite(ColorWrites(section, p), i, p.toNat(FindPropertyInXMLLine(section[i], "id")), LoadColorFromXMLLine(section[i], p));
  }

  /** Later Radius lines win: an id's radius is that of the last line read carrying the id. */
  lemma LastRadiusLineWins(section: seq<string>, p: Parsers, i: nat)
    requires i < |section|
    requires forall j :: i < j < |section| ==>
      p.toNat(FindPropertyInXMLLine(section[j], "id")) != p.toNat(FindPropertyInXMLLine(section[i], "id"))
    ensures p.toNat(FindPropertyInXMLLine(section[i], "id")) in RadiiById(section, p)
    ensures RadiiById(section, p)[p.toNat(FindPropertyInXMLLine(section[i], "id"))] == p.toReal(FindPropertyInXMLLine(section[i], "radius"))
  {
    CollectKeepsLastWrite(RadiusWrites(section, p), i, p.toNat(FindPropertyInXMLLine(section[i], "id")), p.toReal(FindPropertyInXMLLine(section[i], "radius")));
  }

  /** The writes of the AtomsMapping pass, one per line read. */
  function TemplateWrites(passes: PassLines, p: Parsers): (ws: seq<Option<(char, AtomTemplate)>>)
    ensures |ws| == |passes.atomsMapping|
    ensures forall i :: 0 <= i < |ws| ==>
      ws[i] == TemplateWrite(passes.atomsMapping[i], ColorsById(passes.atoms, p), RadiiById(passes.radius, p), p)
  {
    var colors := ColorsById(passes.atoms, p);
    var radius := RadiiById(passes.radius, p);
    seq(|passes.atomsMapping|, i requires 0 <= i < |passes.atomsMapping| => TemplateWrite(passes.atomsMapping[i], colors, radius, p))
  }

  /**
   * `LoadAtomTemplates(fileMapping)` over the XML file's lines: an element
   * character has a template exactly when some line the AtomsMapping pass
   * reads names it as a one-character identifier.
   */
  function LoadAtomTemplates(m: FileMapping, file: Option<seq<string>>, p: Parsers): (templates: map<char, AtomTemplate>)
    ensures file.None? ==> templates == map[]
    ensures file.Some? ==> forall c :: c in templates <==>
      exists line :: line in TemplatePasses(file.value, m).atomsMapping && FindPropertyInXMLLine(line, "identifier") == [c]
  {
    match file
    case None => map[]
    case Some(lines) =>
      var passes := TemplatePasses(lines, m);
      var section := passes.atomsMapping;
      var ws := TemplateWrites(passes, p);
      assert forall c :: c in Collect(ws) <==>
        exists line :: line in section && FindPropertyInXMLLine(line, "identifier") == [c] by {
        forall c
          ensures c in Collect(ws) ==> exists line :: line in section && FindPropertyInXMLLine(line, "identifier") == [c]
        {
          if c in Collect(ws) {
            var i :| 0 <= i < |ws| && ws[i].Some? && ws[i].value.0 == c;
            assert section[i] in section;
          }
        }
        forall c, line | line in section && FindPropertyInXMLLine(line, "identifier") == [c]
          ensures c in Collect(ws)
        {
          var i :| 0 <= i < |section| && section[i] == line;
          assert ws[i].Some? && ws[i].value.0 == c;
        }
      }
      Collect(ws)
  }

  /**
   * Later lines win: the template of an element comes from the LAST line of
   * the AtomsMapping pass naming it, with the colour and radius the earlier
   * passes filed under that line's number.
   */
  lemma LastMappingLineWins(m: FileMapping, lines: seq<string>, p: Parsers, i: nat, c: char)
    requires i < |TemplatePasses(lines, m).atomsMapping|
    requires FindPropertyInXMLLine(TemplatePasses(lines, m).atomsMapping[i], "identifier") == [c]
    requires forall j :: i < j < |TemplatePasses(lines, m).atomsMapping| ==>
      FindPropertyInXMLLine(TemplatePasses(lines, m).atomsMapping[j], "identifier") != [c]
    ensures var passes := TemplatePasses(lines, m);
      var number := p.toNat(FindPropertyInXMLLine(passes.atomsMapping[i], "number"));
      LoadAtomTemplates(m, Some(lines), p)[c]
        == AtomTemplate(Lookup(ColorsById(passes.atoms, p), number, ZERO_COLOR), Lookup(RadiiById(passes.radius, p), number, 0.0))
  {
    var passes := TemplatePasses(lines, m);
    var ws := TemplateWrites(passes, p);
    var section := passes.atomsMapping;
    forall j | i < j < |ws| && ws[j].Some?
      ensures ws[j].value.0 != c
    {
      assert [ws[j].value.0] == FindPropertyInXMLLine(section[j], "identifier");
    }
    assert ws[i].Some? && [ws[i].value.0] == [c];
    CollectKeepsLastWrite(ws, i, c, ws[i].value.1);
  }

  // ---------------------------------------------------------------------
  // ATOM records of the PDB file
  // ---------------------------------------------------------------------

  /** The characters `operator>>` skips before and stops at after a field. */
  predicate IsSpace(c: char)
  {
    c == ' ' || c == '\t' || c == '\n' || c == '\r' || c == '\U{0B}' || c == '\U{0C}'
  }

  /** A field as `operator>>` into a `std::string` produces it: non-empty, no spaces. */
  predicate IsWord(w: string)
  {
    0 < |w| && forall k :: 0 <= k < |w| ==> !IsSpace(w[k])
  }

  /** The end of the run of non-space characters starting at `i`. */
  function WordEnd(s: string, i: nat): (e: nat)
    requires i <= |s|
    ensures i <= e <= |s|
    ensures forall k :: i <= k < e ==> !IsSpace(s[k])
    ensures e < |s| ==> IsSpace(s[e])
    decreases |s| - i
  {
    if i == |s| || IsSpace(s[i]) then i else WordEnd(s, i + 1)
  }

  /** The whitespace-separated fields of `s` from index `i` on. */
  function FieldsFrom(s: string, i: nat): (fs: seq<string>)
    requires i <= |s|
    ensures forall k :: 0 <= k < |fs| ==> IsWord(fs[k])
    decreases |s| - i
  {
    if i == |s| then []
    else if IsSpace(s[i]) then FieldsFrom(s, i + 1)
    else
      var e := WordEnd(s, i);
      [s[i..e]] + FieldsFrom(s, e)
  }

  /** The whitespace-separated fields of a line: what `>> std::string` extractions alone would read. */
  function Fields(s: string): (fs: seq<string>)
    ensures forall k :: 0 <= k < |fs| ==> IsWord(fs[k])
  {
    FieldsFrom(s, 0)
  }

  /** Words joined by single spaces: the line a PDB writer produces from its fields. */
  function JoinWords(ws: seq<string>): string
  {
    if |ws| == 0 then ""
    else if |ws| == 1 then ws[0]
    else ws[0] + " " + JoinWords(ws[1..])
  }

  /** `WordEnd` runs over non-space characters and stops at the first space or the end. */
  lemma {:induction false} WordEndAfterWord(s: string, i: nat, e: nat)
    requires i <= e <= |s|
    requires forall k :: i <= k < e ==> !IsSpace(s[k])
    requires e == |s| || IsSpace(s[e])
    ensures WordEnd(s, i) == e
    decreases e - i
  {
    if i < e {
      WordEndAfterWord(s, i + 1, e);
    }
  }

  /** Text in front of `b` does not change how `b` splits into fields. */
  lemma {:induction false} FieldsFromShift(a: string, b: string, i: nat)
    requires i <= |b|
    ensures FieldsFrom(a + b, |a| + i) == FieldsFrom(b, i)
    decreases |b| - i
  {
    var s := a + b;
    if i < |b| {
      assert s[|a| + i] == b[i];
      if IsSpace(b[i]) {
        FieldsFromShift(a, b, i + 1);
      } else {
        var e := WordEnd(b, i);
        assert forall k :: |a| + i <= k < |a| + e ==> s[k] == b[k - |a|];
        assert |a| + e < |s| ==> s[|a| + e] == b[e];
        WordEndAfterWord(s, |a| + i, |a| + e);
        assert s[|a| + i..|a| + e] == b[i..e];
        FieldsFromShift(a, b, e);
      }
    }
  }

  /** A word followed by nothing or by a space is read as one field. */
  lemma FieldsOfLeadingWord(w: string, tail: string)
    requires IsWord(w)
    requires tail == [] || IsSpace(tail[0])
    ensures Fields(w + tail) == [w] + Fields(tail)
  {
    var s := w + tail;
    assert s[0] == w[0];
    assert |w| < |s| ==> s[|w|] == tail[0];
    WordEndAfterWord(s, 0, |w|);
    assert s[0..|w|] == w;
    FieldsFromShift(w, tail, 0);
  }

  /** Round trip: splitting a line joined from words gives the words back. */
  lemma {:induction false} FieldsOfJoinedWords(ws: seq<string>)
    requires forall k :: 0 <= k < |ws| ==> IsWord(ws[k])
    ensures Fields(JoinWords(ws)) == ws
    decreases |ws|
  {
    if |ws| == 1 {
      FieldsOfLeadingWord(ws[0], []);
      assert ws[0] + [] == ws[0];
    } else if |ws| > 1 {
      var rest := JoinWords(ws[1..]);
      FieldsOfJoinedWords(ws[1..]);
      assert ws[0] + " " + rest == ws[0] + (" " + rest);
      FieldsOfLeadingWord(ws[0], " " + rest);
      FieldsFromShift(" ", rest, 0);
    }
  }

  /** Field `i` of a line, or the empty string when the line has fewer fields. */
  function FieldAt(fs: seq<string>, i: nat): string
  {
    if i < |fs| then fs[i] else ""
  }

  /** The list without its first element; an empty list stays empty. */
  function Tail<T>(xs: seq<T>): seq<T>
  {
    if |xs| == 0 then [] else xs[1..]
  }

  /**
   * An `istringstream` over a line: the text, the read position, and whether
   * an extraction has failed (after which every extraction reads nothing).
   */
  datatype Stream = Stream(text: string, pos: nat, failed: bool)

  /** The fields a stream still offers: none once it has failed. */
  function Rest(st: Stream): seq<string>
  {
    if st.failed || |st.text| < st.pos then [] else FieldsFrom(st.text, st.pos)
  }

  /** Where the whitespace skipped before a field ends. */
  function SkipSpace(s: string, i: nat): (j: nat)
    requires i <= |s|
    ensures i <= j <= |s|
    ensures forall k :: i <= k < j ==> IsSpace(s[k])
    ensures j < |s| ==> !IsSpace(s[j])
    decreases |s| - i
  {
    if i == |s| || !IsSpace(s[i]) then i else SkipSpace(s, i + 1)
  }

  /** Skipping whitespace passes over no field. */
  lemma {:induction false} FieldsAfterSpace(s: string, i: nat)
    requires i <= |s|
    ensures FieldsFrom(s, SkipSpace(s, i)) == FieldsFrom(s, i)
    decreases |s| - i
  {
    if i < |s| && IsSpace(s[i]) {
      FieldsAfterSpace(s, i + 1);
    }
  }

  /**
   * `stream >> str` into a `std::string`: skip whitespace, then read up to
   * the next whitespace. With nothing left the stream fails and the string
   * stays empty; a failed stream reads nothing. In terms of fields: it reads
   * the next field and leaves the others.
   */
  function ExtractWord(st: Stream): (r: (Stream, string))
    requires st.pos <= |st.text|
    ensures r.0.text == st.text && r.0.pos <= |r.0.text|
    ensures r.0.failed <==> |Rest(st)| == 0
    ensures r.1 == FieldAt(Rest(st), 0)
    ensures Rest(r.0) == Tail(Rest(st))
  {
    if st.failed then (st, "")
    else
      var s := st.text;
      var i := SkipSpace(s, st.pos);
      FieldsAfterSpace(s, st.pos);
      if i == |s| then (Stream(s, i, true), "")
      else
        var e := WordEnd(s, i);
        (Stream(s, e, false), s[i..e])
  }

  predicate IsDigit(c: char)
  {
    '0' <= c <= '9'
  }

  /** The end of the run of digits starting at `i`. */
  function DigitsEnd(s: string, i: nat): (e: nat)
    requires i <= |s|
    ensures i <= e <= |s|
    ensures forall k :: i <= k < e ==> IsDigit(s[k])
    ensures e < |s| ==> !IsDigit(s[e])
    decreases |s| - i
  {
    if i == |s| || !IsDigit(s[i]) then i else DigitsEnd(s, i + 1)
  }

  /** `DigitsEnd` runs over digits and stops at the first non-digit or the end. */
  lemma {:induction false} DigitsEndAfterDigits(s: string, i: nat, e: nat)
    requires i <= e <= |s|
    requires forall k :: i <= k < e ==> IsDigit(s[k])
    requires e == |s| || !IsDigit(s[e])
    ensures DigitsEnd(s, i) == e
    decreases e - i
  {
    if i < e {
      DigitsEndAfterDigits(s, i + 1, e);
    }
  }

  /** The value of a run of decimal digits. */
  function DigitsValue(d: string): nat
    requires forall k :: 0 <= k < |d| ==> IsDigit(d[k])
  {
    if |d| == 0 then 0
    else
      assert IsDigit(d[|d| - 1]);
      10 * DigitsValue(d[..|d| - 1]) + ((d[|d| - 1] as int) - ('0' as int))
  }

  /** `std::numeric_limits<uint64_t>::max()` */
  const UINT64_MAX: nat := 0xFFFF_FFFF_FFFF_FFFF

  /** One for a `+` or `-` at `i`, which a numeric extraction accepts before the digits. */
  function SignLength(s: string, i: nat): nat
  {
    if i < |s| && (s[i] == '+' || s[i] == '-') then 1 else 0
  }

  /** How much of a field a numeric extraction consumes: an optional sign and the digits after it. */
  function NumeralEnd(w: string): nat
  {
    DigitsEnd(w, SignLength(w, 0))
  }

  /** A numeric extraction into a `uint64_t` succeeds on a field: at least one digit, and a magnitude that fits. */
  predicate ReadsNumeral(w: string)
  {
    var j := SignLength(w, 0);
    j < NumeralEnd(w) && DigitsValue(w[j..NumeralEnd(w)]) <= UINT64_MAX
  }

  /** What a successful numeric read leaves of the field: nothing, or its tail as the next field. */
  function NumeralLeftover(w: string): seq<string>
  {
    if NumeralEnd(w) < |w| then [w[NumeralEnd(w)..]] else []
  }

  /** A field of digits only, with a value that fits 64 bits. */
  predicate IsUnsignedNumeral(w: string)
  {
    0 < |w| && (forall k :: 0 <= k < |w| ==> IsDigit(w[k])) && DigitsValue(w) <= UINT64_MAX
  }

  /** A field of digits only is read whole. */
  lemma UnsignedNumeralIsReadWhole(w: string)
    requires IsUnsignedNumeral(w)
    ensures ReadsNumeral(w) && NumeralLeftover(w) == []
  {
    DigitsEndAfterDigits(w, 0, |w|);
    assert w[0..|w|] == w;
  }

  /**
   * The numeric read, seen on the fields: from position `p`, the sign and
   * digits read are those at the start of the next field, and what follows
   * them is the rest of that field (when any) and then the later fields.
   */
  lemma NumeralReadWithinField(s: string, p: nat)
    requires p <= |s| && SkipSpace(s, p) < |s|
    ensures 0 < |FieldsFrom(s, p)|
    ensures var i := SkipSpace(s, p);
      var j := i + SignLength(s, i);
      var w := FieldsFrom(s, p)[0];
      && j <= |s|
      && SignLength(w, 0) == j - i
      && NumeralEnd(w) == DigitsEnd(s, j) - i
      && w[SignLength(w, 0)..NumeralEnd(w)] == s[j..DigitsEnd(s, j)]
      && FieldsFrom(s, DigitsEnd(s, j)) == NumeralLeftover(w) + FieldsFrom(s, p)[1..]
  {
    FieldsAfterSpace(s, p);
    var i := SkipSpace(s, p);
    var we := WordEnd(s, i);
    assert FieldsFrom(s, i) == [s[i..we]] + FieldsFrom(s, we);
    NumeralWithinWord(s, i, we);
  }

  /** The numeral read at the start of the word `s[i..we]` ends inside it, where `NumeralEnd` says. */
  lemma NumeralWithinWord(s: string, i: nat, we: nat)
    requires i < we <= |s| && we == WordEnd(s, i)
    ensures var j := i + SignLength(s, i);
      var w := s[i..we];
      && j <= DigitsEnd(s, j) <= we
      && SignLength(w, 0) == j - i
      && NumeralEnd(w) == DigitsEnd(s, j) - i
      && w[SignLength(w, 0)..NumeralEnd(w)] == s[j..DigitsEnd(s, j)]
      && FieldsFrom(s, DigitsEnd(s, j)) == NumeralLeftover(w) + FieldsFrom(s, we)
  {
    NumeralSpanInWord(s, i, we);
    NumeralLeftoverInWord(s, i, we);
  }

  /** The sign and digits read at the start of the word `s[i..we]`, located in the word and in the line. */
  lemma NumeralSpanInWord(s: string, i: nat, we: nat)
    requires i < we <= |s| && we == WordEnd(s, i)
    ensures var j := i + SignLength(s, i);
      var w := s[i..we];
      && j <= DigitsEnd(s, j) <= we
      && SignLength(w, 0) == j - i
      && NumeralEnd(w) == DigitsEnd(s, j) - i
      && w[SignLength(w, 0)..NumeralEnd(w)] == s[j..DigitsEnd(s, j)]
  {
    var w := s[i..we];
    var j := i + SignLength(s, i);
    assert w[0] == s[i];
    DigitsEndInsideWord(s, i, we, j - i);
    SliceOfSlice(s, i, we, j - i, DigitsEnd(s, j) - i);
  }

  /** A slice of a slice is a slice of the whole. */
  lemma SliceOfSlice(s: string, i: nat, we: nat, a: nat, b: nat)
    requires i <= we <= |s| && a <= b <= we - i
    ensures s[i..we][a..b] == s[i + a..i + b]
  {
    assert forall k :: 0 <= k < b - a ==> s[i..we][a..b][k] == s[i + a + k];
  }

  /** After the numeral at the start of the word `s[i..we]`, the fields are the word's leftover and those after it. */
  lemma NumeralLeftoverInWord(s: string, i: nat, we: nat)
    requires i < we <= |s| && we == WordEnd(s, i)
    ensures var j := i + SignLength(s, i);
      FieldsFrom(s, DigitsEnd(s, j)) == NumeralLeftover(s[i..we]) + FieldsFrom(s, we)
  {
    var w := s[i..we];
    var j := i + SignLength(s, i);
    var e := DigitsEnd(s, j);
    assert w[0] == s[i];
    DigitsEndInsideWord(s, i, we, j - i);
    assert NumeralEnd(w) == e - i;
    LeftoverOfWord(s, e, we);
    assert e < we ==> s[e..we] == w[e - i..];
  }

  /** Digits read from inside the word `s[i..we]` end inside it, at the same place as in the word. */
  lemma DigitsEndInsideWord(s: string, i: nat, we: nat, d: nat)
    requires i + d <= we <= |s| && we == WordEnd(s, i)
    ensures DigitsEnd(s, i + d) <= we
    ensures DigitsEnd(s[i..we], d) == DigitsEnd(s, i + d) - i
  {
    var w := s[i..we];
    var e := DigitsEnd(s, i + d);
    assert e <= we;
    assert forall k :: d <= k < e - i ==> w[k] == s[k + i];
    assert e - i < |w| ==> w[e - i] == s[e];
    DigitsEndAfterDigits(w, d, e - i);
  }

  /** From inside the word ending at `we`, the fields are the rest of that word and then those after it. */
  lemma LeftoverOfWord(s: string, e: nat, we: nat)
    requires e <= we <= |s|
    requires forall k :: e <= k < we ==> !IsSpace(s[k])
    requires we == |s| || IsSpace(s[we])
    ensures FieldsFrom(s, e) == (if e < we then [s[e..we]] else []) + FieldsFrom(s, we)
  {
    if e < we {
      WordEndAfterWord(s, e, we);
    }
  }

  /**
   * `stream >> n` into a `uint64_t` (only whether and where it stops
   * matters: the value is never used). Skip whitespace, read an optional
   * sign and the digits after it; no digit, or a magnitude beyond 64 bits,
   * fails the stream. The read stops at the first non-digit, which may lie
   * inside a field: the rest of that field is what the next extraction sees.
   */
  function ExtractUnsigned(st: Stream): (r: Stream)
    requires st.pos <= |st.text|
    ensures r.text == st.text && r.pos <= |r.text|
    ensures r.failed <==> |Rest(st)| == 0 || !ReadsNumeral(Rest(st)[0])
    ensures !r.failed ==> Rest(r) == NumeralLeftover(Rest(st)[0]) + Rest(st)[1..]
  {
    if st.failed then st
    else
      var s := st.text;
      var i := SkipSpace(s, st.pos);
      var j := i + SignLength(s, i);
      var e := DigitsEnd(s, j);
      FieldsAfterSpace(s, st.pos);
      if i == |s| then Stream(s, e, true)
      else
        NumeralReadWithinField(s, st.pos);
        if e == j || UINT64_MAX < DigitsValue(s[j..e]) then Stream(s, e, true)
        else Stream(s, e, false)
  }

  /** `atomTag[0]`: the first character, or the terminating `'\0'` of an empty tag. */
  function ElementOf(tag: string): char
  {
    if |tag| == 0 then '\0' else tag[0]
  }

  /** What `LoadAtoms` keeps of an atom: its centre and the keys of its template and residue. */
  datatype LoadedAtom = LoadedAtom(position: Vec3, element: char, residue: string)

  /** `Residue`: a residue's colour. */
  datatype Residue = Residue(color: Vec3)

  /**
   * The fields the string extractions after `>> atomId` see: what the
   * numeral left of the second field, then the later fields; none when there
   * is no second field or it starts with no readable numeral, for then the
   * stream has failed.
   */
  function FieldsAfterAtomId(fs: seq<string>): seq<string>
  {
    if |fs| < 2 || !ReadsNumeral(fs[1]) then [] else NumeralLeftover(fs[1]) + fs[2..]
  }

  /**
   * One ATOM record, read from an `istringstream` of the line as
   * `temp[0] >> atomId >> atomTag >> residueString >> temp[1] >> residueId >> x >> y >> z`.
   * The element is the first character of `atomTag` and the residue key is
   * `temp[1]`: the first and third fields after the numeric `atomId`.
   */
  function ReadAtomLine(line: string, p: Parsers): (a: LoadedAtom)
    ensures var after := FieldsAfterAtomId(Fields(line));
      a.element == ElementOf(FieldAt(after, 0)) && a.residue == FieldAt(after, 2)
  {
    var s0 := Stream(line, 0, false);
    var (s1, _) := ExtractWord(s0);
    var s2 := ExtractUnsigned(s1);
    var (s3, atomTag) := ExtractWord(s2);
    var (s4, _) := ExtractWord(s3);
    var (s5, chain) := ExtractWord(s4);
    var s6 := ExtractUnsigned(s5);
    var (s7, x) := ExtractWord(s6);
    var (s8, y) := ExtractWord(s7);
    var (_, z) := ExtractWord(s8);
    assert Rest(s2) == FieldsAfterAtomId(Fields(line));
    LoadedAtom(Vec3(p.toReal(x), p.toReal(y), p.toReal(z)), ElementOf(atomTag), chain)
  }

  /** When the second field is a numeral read whole, the element and residue key come from the third and fifth fields. */
  lemma ReadAtomLineReadsFields(line: string, p: Parsers)
    requires 2 <= |Fields(line)| ==> ReadsNumeral(Fields(line)[1]) && NumeralLeftover(Fields(line)[1]) == []
    ensures ReadAtomLine(line, p).element == ElementOf(FieldAt(Fields(line), 2))
    ensures ReadAtomLine(line, p).residue == FieldAt(Fields(line), 4)
  {
  }

  /**
   * Round trip over every record written field by field: with a digits-only
   * atom id, the element is the first character of the third field and the
   * residue key the fifth field.
   */
  lemma ReadAtomLineOfJoinedWords(ws: seq<string>, p: Parsers)
    requires forall k :: 0 <= k < |ws| ==> IsWord(ws[k])
    requires 2 <= |ws| ==> IsUnsignedNumeral(ws[1])
    ensures ReadAtomLine(JoinWords(ws), p).element == ElementOf(FieldAt(ws, 2))
    ensures ReadAtomLine(JoinWords(ws), p).residue == FieldAt(ws, 4)
  {
    FieldsOfJoinedWords(ws);
    if 2 <= |ws| {
      UnsignedNumeralIsReadWhole(ws[1]);
    }
    ReadAtomLineReadsFields(JoinWords(ws), p);
  }

  /** The sample record quoted in `LoadAtoms`, field by field. */
  const SAMPLE_RECORD: seq<string> :=
    ["ATOM", "1", "N", "ILE", "A", "15", "11.749", "81.774", "51.160", "1.00", "13.80", "N"]

  /** The sample record's fields are words, and its atom id is a plain numeral. */
  lemma SampleRecordIsWellFormed()
    ensures forall k :: 0 <= k < |SAMPLE_RECORD| ==> IsWord(SAMPLE_RECORD[k])
    ensures IsUnsignedNumeral(SAMPLE_RECORD[1])
  {
    assert DigitsValue("1") == 1;
  }

  /**
   * The sample record of the source: the element is `N` and the residue key
   * is the chain field `A` (the fifth field), not the residue name `ILE`.
   */
  lemma SampleRecordFields(p: Parsers)
    ensures var a := ReadAtomLine(JoinWords(SAMPLE_RECORD), p);
            a.element == 'N' && a.residue == "A"
  {
    SampleRecordIsWellFormed();
    ReadAtomLineOfJoinedWords(SAMPLE_RECORD, p);
  }

  /**
   * The numeric atom id stops at the first non-digit: in `ATOM 12A N ILE A`
   * the id reads `12`, the tag reads `A`, and the residue key is `ILE`.
   */
  lemma AtomIdStopsInsideField(p: Parsers)
    ensures var a := ReadAtomLine(JoinWords(["ATOM", "12A", "N", "ILE", "A", "15", "1", "2", "3"]), p);
            a.element == 'A' && a.residue == "ILE"
  {
    var ws := ["ATOM", "12A", "N", "ILE", "A", "15", "1", "2", "3"];
    forall k | 0 <= k < |ws|
      ensures IsWord(ws[k])
    {
    }
    FieldsOfJoinedWords(ws);
    TwelveAIsReadAsTwelve();
    assert FieldsAfterAtomId(ws) == ["A"] + ws[2..];
  }

  /** `>> atomId` on `12A` reads `12` and leaves `A`. */
  lemma TwelveAIsReadAsTwelve()
    ensures ReadsNumeral("12A") && NumeralLeftover("12A") == ["A"]
  {
    DigitsEndAfterDigits("12A", 0, 2);
    assert "12A"[0..2] == "12";
    assert DigitsValue("12") == 12 by {
      assert "12"[..1] == "1";
    }
    assert "12A"[2..] == "A";
  }

  /**
   * A record whose second field holds no numeral fails the stream: in
   * `ATOM100000 N ILE A` the id cannot be read, so the tag is empty, the
   * element is `'\0'` and the residue key is empty.
   */
  lemma UnreadableAtomIdBlanksRecord(p: Parsers)
    ensures var a := ReadAtomLine(JoinWords(["ATOM100000", "N", "ILE", "A", "15", "1", "2", "3"]), p);
            a.element == '\0' && a.residue == ""
  {
    var ws := ["ATOM100000", "N", "ILE", "A", "15", "1", "2", "3"];
    forall k | 0 <= k < |ws|
      ensures IsWord(ws[k])
    {
    }
    FieldsOfJoinedWords(ws);
    DigitsEndAfterDigits("N", 0, 0);
    assert !ReadsNumeral("N");
  }

  const ATOM_TAG: string := "ATOM"

  /** The lines starting with `ATOM`, in file order. */
  function AtomLines(lines: seq<string>): (records: seq<string>)
    ensures forall line :: line in records <==> line in lines && StartsWith(line, ATOM_TAG)
    ensures |records| <= |lines|
    decreases |lines|
  {
    if |lines| == 0 then []
    else (if StartsWith(lines[0], ATOM_TAG) then [lines[0]] else []) + AtomLines(lines[1..])
  }

  /** The filter keeps file order: the records of a file are those of its first part, then those of the rest. */
  lemma {:induction false} AtomLinesOfConcatenation(a: seq<string>, b: seq<string>)
    ensures AtomLines(a + b) == AtomLines(a) + AtomLines(b)
    decreases |a|
  {
    if |a| == 0 {
      assert a + b == b;
    } else {
      assert (a + b)[0] == a[0];
      assert (a + b)[1..] == a[1..] + b;
      AtomLinesOfConcatenation(a[1..], b);
    }
  }

  /** The result of `LoadAtoms` together with the two maps it inserts into. */
  datatype Loaded = Loaded(atoms: seq<LoadedAtom>, templates: map<char, AtomTemplate>, residues: map<string, Residue>)

  /** A value-initialised template and residue: everything zero. */
  const DEFAULT_TEMPLATE: AtomTemplate := AtomTemplate(ZERO_COLOR, 0.0)
  const DEFAULT_RESIDUE: Residue := Residue(ZERO_COLOR)

  /**
   * The atoms the `while (getline)` loop appends, line by line: atom `i` is
   * read from the `i`-th line starting with `ATOM`, in file order.
   */
  function AtomRecords(lines: seq<string>, p: Parsers): (atoms: seq<LoadedAtom>)
    ensures |atoms| == |AtomLines(lines)|
    ensures forall i :: 0 <= i < |atoms| ==> atoms[i] == ReadAtomLine(AtomLines(lines)[i], p)
    decreases |lines|
  {
    if |lines| == 0 then []
    else
      var front := lines[..|lines| - 1];
      var line := lines[|lines| - 1];
      assert lines == front + [line];
      AtomLinesOfConcatenation(front, [line]);
      assert [line][1..] == [];
      AtomRecords(front, p) + (if StartsWith(line, ATOM_TAG) then [ReadAtomLine(line, p)] else [])
  }

  /**
   * `m[key]` evaluated for each key in turn, for its side effect only: a key
   * not yet present is inserted with the value-initialised `absent`.
   */
  function InsertMissing<K(!new), V>(m: map<K, V>, keys: seq<K>, absent: V): (r: map<K, V>)
    ensures forall k :: k in r <==> k in m || k in keys
    ensures forall k :: k in m ==> r[k] == m[k]
    ensures forall k :: k in r && k !in m ==> r[k] == absent
    decreases |keys|
  {
    if |keys| == 0 then m
    else
      var front := keys[..|keys| - 1];
      var k := keys[|keys| - 1];
      assert keys == front + [k];
      var earlier := InsertMissing(m, front, absent);
      if k in earlier then earlier else earlier[k := absent]
  }

  /** The template keys the atoms look up, in order. */
  function Elements(atoms: seq<LoadedAtom>): (cs: seq<char>)
    ensures forall c :: c in cs <==> exists a :: a in atoms && a.element == c
  {
    if |atoms| == 0 then [] else [atoms[0].element] + Elements(atoms[1..])
  }

  /** The residue keys the atoms look up, in order. */
  function ResidueKeys(atoms: seq<LoadedAtom>): (ks: seq<string>)
    ensures forall k :: k in ks <==> exists a :: a in atoms && a.residue == k
  {
    if |atoms| == 0 then [] else [atoms[0].residue] + ResidueKeys(atoms[1..])
  }

  /**
   * The `while (getline)` loop of `LoadAtoms`: the atoms of the ATOM records,
   * with `atomTemplates[element]` and `residues[temp[1]]` inserting a zero
   * entry for each key they do not hold yet.
   */
  function ReadAtoms(lines: seq<string>, templates: map<char, AtomTemplate>, residues: map<string, Residue>, p: Parsers): (r: Loaded)
    ensures r.atoms == AtomRecords(lines, p)
    ensures |r.atoms| == |AtomLines(lines)|
    ensures forall c :: c in r.templates <==> c in templates || exists a :: a in r.atoms && a.element == c
    ensures forall c :: c in templates ==> r.templates[c] == templates[c]
    ensures forall c :: c in r.templates && c !in templates ==> r.templates[c] == DEFAULT_TEMPLATE
    ensures forall k :: k in r.residues <==> k in residues || exists a :: a in r.atoms && a.residue == k
    ensures forall k :: k in residues ==> r.residues[k] == residues[k]
    ensures forall k :: k in r.residues && k !in residues ==> r.residues[k] == DEFAULT_RESIDUE
  {
    var atoms := AtomRecords(lines, p);
    var elements := Elements(atoms);
    var residueKeys := ResidueKeys(atoms);
    Loaded(atoms, InsertMissing(templates, elements, DEFAULT_TEMPLATE), InsertMissing(residues, residueKeys, DEFAULT_RESIDUE))
  }

  /** `LoadAtoms(pdbPath, atomTemplates, residues)` over the PDB file's lines (`None`: it cannot be opened). */
  function LoadAtoms(file: Option<seq<string>>, templates: map<char, AtomTemplate>, residues: map<string, Residue>, p: Parsers): (r: Loaded)
    ensures file.None? ==> r == Loaded([], templates, residues)
    ensures file.Some? ==> r == ReadAtoms(file.value, templates, residues, p)
  {
    match file
    case None => Loaded([], templates, residues)
    case Some(lines) => ReadAtoms(lines, templates, residues, p)
  }
}
