// `HelpManager` of `src/onlyfiles/utils/help_manager.py`: the help text is
// read once, and three line loops pick the commands, the options and the
// examples out of it. The file's content is a parameter (`None` when the
// file is not found).

module HelpText {
  import opened Wrappers
  import opened Strings
  import opened Seqs

  // ---------------------------------------------------------------- the text

  /** `_load_help_content()`: the text of the help file, or `""` when opening
      it raises `FileNotFoundError`. */
  function LoadHelpContent(file: Option<string>): string {
    if file.Some? then file.value else ""
  }

  /** `content.split('\n')` */
  function Lines(content: string): seq<string> {
    Split(content, "\n")
  }

  // ---------------------------------------------------------------- sections

  /** Some line starts with `header`: the loop's `in_*_section` flag. */
  predicate Opened(ls: seq<string>, header: string) {
    exists j :: 0 <= j < |ls| && StartsWith(ls[j], header)
  }

  /** The lines the loop reaches in its section branch: every line after the
      first one starting with `header` that does not itself start with it. */
  function Section(ls: seq<string>, header: string): (r: seq<string>)
    ensures forall l :: l in r ==> l in ls && !StartsWith(l, header)
  {
    if ls == [] then []
    else
      var init := ls[..|ls| - 1];
      var l := ls[|ls| - 1];
      Section(init, header) + (if Opened(init, header) && !StartsWith(l, header) then [l] else [])
  }

  /** The line that ends the loop: it starts with `stop` and (as the header is
      checked first) not with `header`. */
  predicate IsStop(l: string, header: string, stop: string) {
    !StartsWith(l, header) && StartsWith(l, stop)
  }

  /** Index of the first stopping line, or `|ls|`. */
  function StopAt(ls: seq<string>, header: string, stop: string): (k: nat)
    ensures k <= |ls|
    ensures forall j :: 0 <= j < k ==> !IsStop(ls[j], header, stop)
    ensures k < |ls| ==> IsStop(ls[k], header, stop)
  {
    if ls == [] then 0
    else if IsStop(ls[0], header, stop) then 0
    else 1 + StopAt(ls[1..], header, stop)
  }

  /** The loop breaks at line `i` exactly when that line is the stopping
      line, having seen no stopping line before it. */
  lemma StopStep(ls: seq<string>, header: string, stop: string, i: nat)
    requires i < |ls| && i <= StopAt(ls, header, stop)
    ensures IsStop(ls[i], header, stop) <==> StopAt(ls, header, stop) == i
  {
  }

  /** The lines the loop visits before it breaks. */
  function Before(ls: seq<string>, header: string, stop: string): seq<string> {
    ls[..StopAt(ls, header, stop)]
  }

  function NotHeader(header: string): string -> bool {
    l => !StartsWith(l, header)
  }

  /** A list without a header line opens no section. */
  lemma {:induction false} SectionClosed(ls: seq<string>, header: string)
    requires !Opened(ls, header)
    ensures Section(ls, header) == []
    decreases |ls|
  {
    if ls != [] {
      var init := ls[..|ls| - 1];
      forall j | 0 <= j < |init| ensures !StartsWith(init[j], header) {
        assert init[j] == ls[j];
      }
      SectionClosed(init, header);
    }
  }

  /** The section is what follows the first header line, minus further header
      lines, in order. */
  lemma {:induction false} SectionAfterHeader(ls: seq<string>, header: string, h: nat)
    requires h < |ls| && StartsWith(ls[h], header)
    requires forall j :: 0 <= j < h ==> !StartsWith(ls[j], header)
    ensures Section(ls, header) == Filter(ls[h + 1..], NotHeader(header))
    decreases |ls|
  {
    if |ls| == h + 1 {
      SectionAtHeader(ls, header, h);
    } else {
      var init := ls[..|ls| - 1];
      assert init[h] == ls[h];
      assert forall j :: 0 <= j < h ==> init[j] == ls[j];
      SectionAfterHeader(init, header, h);
      SectionExtend(ls, header, h);
      FilterSlice(ls, h, NotHeader(header));
    }
  }

  lemma FilterSlice(ls: seq<string>, h: nat, keep: string -> bool)
    requires h < |ls| - 1
    ensures Filter(ls[h + 1..], keep) == Filter(ls[..|ls| - 1][h + 1..], keep) + (if keep(ls[|ls| - 1]) then [ls[|ls| - 1]] else [])
  {
    var t := ls[h + 1..];
    var t0 := ls[..|ls| - 1][h + 1..];
    assert t == t0 + [ls[|ls| - 1]];
    FilterSnoc(t0, ls[|ls| - 1], keep);
  }

  /** Up to the first header line the section is empty. */
  lemma SectionAtHeader(ls: seq<string>, header: string, h: nat)
    requires h < |ls| && |ls| == h + 1 && StartsWith(ls[h], header)
    requires forall j :: 0 <= j < h ==> !StartsWith(ls[j], header)
    ensures Section(ls, header) == []
  {
    var init := ls[..h];
    forall j | 0 <= j < |init| ensures !StartsWith(init[j], header) {
      assert init[j] == ls[j];
    }
    SectionClosed(init, header);
  }

  /** After the first header line, each line joins the section unless it is a
      header line itself. */
  lemma SectionExtend(ls: seq<string>, header: string, h: nat)
    requires h < |ls| - 1 && StartsWith(ls[h], header)
    ensures Section(ls, header)
            == Section(ls[..|ls| - 1], header) + (if NotHeader(header)(ls[|ls| - 1]) then [ls[|ls| - 1]] else [])
  {
    assert ls[..|ls| - 1][h] == ls[h];
  }

  lemma FilterSnoc(s: seq<string>, x: string, keep: string -> bool)
    ensures Filter(s + [x], keep) == Filter(s, keep) + (if keep(x) then [x] else [])
  {
    assert (s + [x])[..|s|] == s;
  }

  /** When a stopping line comes before every header line, the loop breaks
      before its section opens. */
  lemma StopFirst(ls: seq<string>, header: string, stop: string, j: nat)
    requires j < |ls| && IsStop(ls[j], header, stop)
    requires forall i :: 0 <= i <= j ==> !StartsWith(ls[i], header)
    ensures Section(Before(ls, header, stop), header) == []
  {
    var b := Before(ls, header, stop);
    forall i | 0 <= i < |b| ensures !StartsWith(b[i], header) {
      assert b[i] == ls[i];
    }
    SectionClosed(b, header);
  }

  // ---------------------------------------------------------------- commands and options

  /** `line.strip().split(maxsplit=1)` read as a key and its stripped
      description, for a non-blank line with two parts. */
  function Pair(line: string): Option<(string, string)> {
    var t := Strip(line);
    if t == "" then None
    else
      var parts := SplitOnce(t);
      if |parts| == 2 then Some((parts[0], Strip(parts[1]))) else None
  }

  /** The reading of every line. */
  function Readings(ls: seq<string>): (r: seq<Option<(string, string)>>)
    ensures |r| == |ls| && forall i :: 0 <= i < |ls| ==> r[i] == Pair(ls[i])
  {
    if ls == [] then [] else Readings(ls[..|ls| - 1]) + [Pair(ls[|ls| - 1])]
  }

  /** The dictionary filled from the readings in order: each one present sets
      its key, so a later one overwrites an earlier one with the same key. */
  function Fill(ps: seq<Option<(string, string)>>): map<string, string> {
    if ps == [] then map[] else Put(Fill(ps[..|ps| - 1]), ps[|ps| - 1])
  }

  /** `entries[key] = description` for a reading that has them. */
  function Put(m: map<string, string>, p: Option<(string, string)>): map<string, string> {
    match p
    case None => m
    case Some(kd) => m[kd.0 := kd.1]
  }

  /** The dictionary the loop fills from the lines of its section. */
  function Entries(ls: seq<string>): map<string, string> {
    Fill(Readings(ls))
  }

  /** What `_parse_commands` (`header` "Commands:", `stop` "Options:") and
      `_parse_options` ("Options:", "Examples:") return. */
  function EntriesOf(content: string, header: string, stop: string): map<string, string> {
    Entries(Section(Before(Lines(content), header, stop), header))
  }

  /** Reading `j` names the key `k`. */
  predicate Names(ps: seq<Option<(string, string)>>, j: int, k: string) {
    0 <= j < |ps| && ps[j].Some? && ps[j].value.0 == k
  }

  /** The keys are exactly those the readings name. */
  lemma {:induction false} FillKeys(ps: seq<Option<(string, string)>>, k: string)
    ensures k in Fill(ps) <==> exists j :: Names(ps, j, k)
    decreases |ps|
  {
    if ps != [] {
      var init := ps[..|ps| - 1];
      var last := ps[|ps| - 1];
      FillKeys(init, k);
      assert Fill(ps) == Put(Fill(init), last);
      forall j | 0 <= j < |init| ensures Names(init, j, k) <==> Names(ps, j, k) {
        assert init[j] == ps[j];
      }
      if last.Some? && last.value.0 == k {
        assert Names(ps, |ps| - 1, k);
      } else {
        assert k in Fill(ps) <==> k in Fill(init);
        assert !Names(ps, |ps| - 1, k);
      }
    }
  }

  /** A key maps to the description of the last reading that names it. */
  lemma {:induction false} FillLast(ps: seq<Option<(string, string)>>, j: nat)
    requires j < |ps| && ps[j].Some?
    requires forall i :: j < i < |ps| ==> !Names(ps, i, ps[j].value.0)
    ensures ps[j].value.0 in Fill(ps) && Fill(ps)[ps[j].value.0] == ps[j].value.1
    decreases |ps|
  {
    var init := ps[..|ps| - 1];
    if j < |ps| - 1 {
      assert init[j] == ps[j];
      forall i | j < i < |init| ensures !Names(init, i, init[j].value.0) {
        assert init[i] == ps[i];
        assert !Names(ps, i, ps[j].value.0);
      }
      FillLast(init, j);
      assert !Names(ps, |ps| - 1, ps[j].value.0);
    }
  }

  /** Line `j` reads as a pair with key `k`. */
  predicate HasKey(ls: seq<string>, j: int, k: string) {
    0 <= j < |ls| && Pair(ls[j]).Some? && Pair(ls[j]).value.0 == k
  }

  /** The keys are exactly those of the readable lines. */
  lemma EntriesKeys(ls: seq<string>, k: string)
    ensures k in Entries(ls) <==> exists j :: HasKey(ls, j, k)
  {
    var ps := Readings(ls);
    FillKeys(ps, k);
    forall j ensures Names(ps, j, k) <==> HasKey(ls, j, k) {
    }
  }

  /** A key maps to the description of the last line that names it. */
  lemma EntriesLast(ls: seq<string>, j: nat)
    requires j < |ls| && Pair(ls[j]).Some?
    requires forall i :: j < i < |ls| ==> !HasKey(ls, i, Pair(ls[j]).value.0)
    ensures var (k, d) := Pair(ls[j]).value; k in Entries(ls) && Entries(ls)[k] == d
  {
    var ps := Readings(ls);
    forall i | j < i < |ps| ensures !Names(ps, i, ps[j].value.0) {
      assert !HasKey(ls, i, Pair(ls[j]).value.0);
    }
    FillLast(ps, j);
  }

  /** The first whitespace of `key + rest` ends a key without whitespace. */
  lemma {:induction false} FirstSpaceAfter(key: string, rest: string)
    requires forall i :: 0 <= i < |key| ==> !IsSpace(key[i])
    requires rest != [] && IsSpace(rest[0])
    ensures FirstSpace(key + rest) == |key|
    decreases |key|
  {
    if key != [] {
      assert (key + rest)[1..] == key[1..] + rest;
      FirstSpaceAfter(key[1..], rest);
    }
  }

  /** Whitespace in front of a word is counted exactly. */
  lemma {:induction false} LeadingSpacesOf(gap: string, word: string)
    requires forall i :: 0 <= i < |gap| ==> IsSpace(gap[i])
    requires word != [] && !IsSpace(word[0])
    ensures LeadingSpaces(gap + word) == |gap|
    decreases |gap|
  {
    if gap == [] {
      assert gap + word == word;
    } else {
      assert (gap + word)[1..] == gap[1..] + word;
      LeadingSpacesOf(gap[1..], word);
    }
  }

  /** An indented line `key  description` reads as that key and description. */
  lemma PairOfLine(indent: string, key: string, gap: string, desc: string)
    requires forall i :: 0 <= i < |indent| ==> IsSpace(indent[i])
    requires key != [] && forall i :: 0 <= i < |key| ==> !IsSpace(key[i])
    requires gap != [] && forall i :: 0 <= i < |gap| ==> IsSpace(gap[i])
    requires desc != [] && !IsSpace(desc[0]) && !IsSpace(desc[|desc| - 1])
    ensures Pair(indent + key + gap + desc) == Some((key, desc))
  {
    var t := key + gap + desc;
    assert indent + key + gap + desc == indent + t;
    StripOfLine(indent, t);
    SplitOnceOf(key, gap, desc);
    StripKeeps(desc);
  }

  /** Stripping an indented text with no whitespace at its ends gives the text. */
  lemma StripOfLine(indent: string, t: string)
    requires forall i :: 0 <= i < |indent| ==> IsSpace(indent[i])
    requires t != [] && !IsSpace(t[0]) && !IsSpace(t[|t| - 1])
    ensures Strip(indent + t) == t
  {
    StripPadded(indent, t);
    StripKeeps(t);
  }

  /** Splitting once cuts at the first whitespace run. */
  lemma SplitOnceOf(key: string, gap: string, desc: string)
    requires key != [] && forall i :: 0 <= i < |key| ==> !IsSpace(key[i])
    requires gap != [] && forall i :: 0 <= i < |gap| ==> IsSpace(gap[i])
    requires desc != [] && !IsSpace(desc[0])
    ensures SplitOnce(key + gap + desc) == [key, desc]
  {
    var t := key + gap + desc;
    assert t[0] == key[0];
    assert LeadingSpaces(t) == 0;
    assert LStrip(t) == t;
    assert t == key + (gap + desc);
    assert (gap + desc)[0] == gap[0];
    FirstSpaceAfter(key, gap + desc);
    assert t[|key|..] == gap + desc;
    assert t[..|key|] == key;
    LeadingSpacesOf(gap, desc);
    assert (gap + desc)[|gap|..] == desc;
  }

  // ---------------------------------------------------------------- examples

  /** `line.strip()`, when it is not blank. */
  function Example(line: string): Option<string> {
    var t := Strip(line);
    if t != "" then Some(t) else None
  }

  /** The example of every line. */
  function Samples(ls: seq<string>): (r: seq<Option<string>>)
    ensures |r| == |ls| && forall i :: 0 <= i < |ls| ==> r[i] == Example(ls[i])
  {
    if ls == [] then [] else Samples(ls[..|ls| - 1]) + [Example(ls[|ls| - 1])]
  }

  /** `xs` with the text of `o` appended, when there is one. */
  function Add(xs: seq<string>, o: Option<string>): seq<string> {
    if o.Some? then xs + [o.value] else xs
  }

  /** The texts present, in order. */
  function Gather(os: seq<Option<string>>): seq<string> {
    if os == [] then [] else Add(Gather(os[..|os| - 1]), os[|os| - 1])
  }

  /** `examples.append(line.strip())` for each line not blank, in order. */
  function Examples(ls: seq<string>): seq<string> {
    Gather(Samples(ls))
  }

  /** Exactly the texts present are gathered. */
  lemma {:induction false} GatherMembers(os: seq<Option<string>>, x: string)
    ensures x in Gather(os) <==> exists j :: 0 <= j < |os| && os[j] == Some(x)
    decreases |os|
  {
    if os != [] {
      var init := os[..|os| - 1];
      GatherMembers(init, x);
      forall j | 0 <= j < |init| ensures init[j] == os[j] {
      }
      assert Gather(os) == Add(Gather(init), os[|os| - 1]);
    }
  }

  /** An example is a non-empty text free of surrounding whitespace. */
  lemma ExampleStripped(l: string)
    ensures Example(l).Some? ==> Example(l).value != "" && Strip(Example(l).value) == Example(l).value
  {
    if Example(l).Some? {
      StripKeeps(Strip(l));
    }
  }

  /** The examples are the stripped non-blank lines; each is a non-empty text
      free of surrounding whitespace. */
  lemma ExamplesStripped(ls: seq<string>, x: string)
    ensures x in Examples(ls) <==> exists j :: 0 <= j < |ls| && Example(ls[j]) == Some(x)
    ensures x in Examples(ls) ==> x != "" && Strip(x) == x
  {
    var os := Samples(ls);
    GatherMembers(os, x);
    if x in Examples(ls) {
      var j :| 0 <= j < |os| && os[j] == Some(x);
      ExampleStripped(ls[j]);
    }
  }

  /** What `_parse_examples` returns: the section from "Examples:" to a line
      starting "For more information". */
  function ExamplesOf(content: string): seq<string> {
    Examples(Section(Before(Lines(content), ExamplesHeader, ExamplesEnd), ExamplesHeader))
  }

  const ExamplesHeader := "Examples:"
  const ExamplesEnd := "For more information"

  /** A missing help file leaves no command, option or example. */
  lemma MissingFileEmpty()
    ensures EntriesOf(LoadHelpContent(None), "Commands:", "Options:") == map[]
    ensures EntriesOf(LoadHelpContent(None), "Options:", "Examples:") == map[]
    ensures ExamplesOf(LoadHelpContent(None)) == []
  {
    NoSectionInEmpty("Commands:", "Options:");
    NoSectionInEmpty("Options:", "Examples:");
    NoSectionInEmpty(ExamplesHeader, ExamplesEnd);
  }

  /** Empty content has an empty section under any header. */
  lemma NoSectionInEmpty(header: string, stop: string)
    requires header != ""
    ensures Section(Before(Lines(""), header, stop), header) == []
  {
    FindCharNone("", '\n');
    assert Lines("") == [""];
    var b := Before(Lines(""), header, stop);
    assert b == [] || b == [""];
    assert !StartsWith("", header);
    SectionClosed(b, header);
  }

  // ---------------------------------------------------------------- the loops

  /** The flag after one more line. */
  lemma OpenedStep(ls: seq<string>, header: string, i: nat)
    requires i < |ls|
    ensures Opened(ls[..i + 1], header) <==> Opened(ls[..i], header) || StartsWith(ls[i], header)
  {
    InitOf(ls, i);
    forall j | 0 <= j < i ensures ls[..i + 1][j] == ls[..i][j] {
    }
    assert ls[..i + 1][i] == ls[i];
  }

  /** The section after one more line. */
  lemma StepLine(ls: seq<string>, header: string, i: nat)
    requires i < |ls|
    ensures Opened(ls[..i + 1], header) <==> Opened(ls[..i], header) || StartsWith(ls[i], header)
    ensures Section(ls[..i + 1], header)
            == Section(ls[..i], header) + (if Opened(ls[..i], header) && !StartsWith(ls[i], header) then [ls[i]] else [])
  {
    OpenedStep(ls, header, i);
    InitOf(ls, i);
  }

  /** One more section line in the dictionary. */
  lemma EntriesNext(ls: seq<string>, l: string)
    ensures Entries(ls + [l]) == Put(Entries(ls), Pair(l))
  {
    assert (ls + [l])[..|ls|] == ls;
    var ps := Readings(ls);
    assert Readings(ls + [l]) == ps + [Pair(l)];
    assert (ps + [Pair(l)])[..|ps|] == ps;
  }

  /** The dictionary after one more line of the loop. */
  lemma EntriesStep(ls: seq<string>, header: string, i: nat)
    requires i < |ls|
    ensures Entries(Section(ls[..i + 1], header))
            == if Opened(ls[..i], header) && !StartsWith(ls[i], header)
               then Put(Entries(Section(ls[..i], header)), Pair(ls[i]))
               else Entries(Section(ls[..i], header))
  {
    StepLine(ls, header, i);
    if Opened(ls[..i], header) && !StartsWith(ls[i], header) {
      EntriesNext(Section(ls[..i], header), ls[i]);
    } else {
      assert Section(ls[..i + 1], header) == Section(ls[..i], header);
    }
  }

  /** One more section line in the list of examples. */
  lemma ExamplesNext(ls: seq<string>, l: string)
    ensures Examples(ls + [l]) == Add(Examples(ls), Example(l))
  {
    assert (ls + [l])[..|ls|] == ls;
    var os := Samples(ls);
    assert Samples(ls + [l]) == os + [Example(l)];
    assert (os + [Example(l)])[..|os|] == os;
  }

  /** The examples after one more line of the loop. */
  lemma ExamplesStep(ls: seq<string>, header: string, i: nat)
    requires i < |ls|
    ensures Examples(Section(ls[..i + 1], header))
            == if Opened(ls[..i], header) && !StartsWith(ls[i], header)
               then Add(Examples(Section(ls[..i], header)), Example(ls[i]))
               else Examples(Section(ls[..i], header))
  {
    StepLine(ls, header, i);
    if Opened(ls[..i], header) && !StartsWith(ls[i], header) {
      ExamplesNext(Section(ls[..i], header), ls[i]);
    } else {
      assert Section(ls[..i + 1], header) == Section(ls[..i], header);
    }
  }

  /** `_parse_commands()` and `_parse_options()`: one loop over the lines with
      the section flag, breaking at the stopping line. */
  method ParseEntries(content: string, header: string, stop: string) returns (entries: map<string, string>)
    ensures entries == EntriesOf(content, header, stop)
  {
    var lines := Lines(content);
    entries := map[];
    var inSection := false;
    var i := 0;
    while i < |lines|
      invariant 0 <= i <= |lines|
      invariant i <= StopAt(lines, header, stop)
      invariant inSection == Opened(lines[..i], header)
      invariant entries == Entries(Section(lines[..i], header))
    {
      var line := lines[i];
      OpenedStep(lines, header, i);
      EntriesStep(lines, header, i);
      StopStep(lines, header, stop, i);
      if StartsWith(line, header) {
        inSection := true;
      } else if StartsWith(line, stop) {
        break;
      } else if inSection {
        var kd := Pair(line);
        if kd.Some? {
          entries := entries[kd.value.0 := kd.value.1];
        }
      }
      i := i + 1;
    }
    assert StopAt(lines, header, stop) == i;
  }

  /** `_parse_examples()`: the same loop collecting stripped lines. */
  method ParseExamples(content: string) returns (examples: seq<string>)
    ensures examples == ExamplesOf(content)
  {
    examples := CollectSection(content, ExamplesHeader, ExamplesEnd);
  }

  /** The loop of `_parse_examples`, for its header and its stopping line. */
  method CollectSection(content: string, header: string, stop: string) returns (examples: seq<string>)
    ensures examples == Examples(Section(Before(Lines(content), header, stop), header))
  {
    var lines := Lines(content);
    examples := [];
    var inSection := false;
    var i := 0;
    while i < |lines|
      invariant 0 <= i <= |lines|
      invariant i <= StopAt(lines, header, stop)
      invariant inSection == Opened(lines[..i], header)
      invariant examples == Examples(Section(lines[..i], header))
    {
      var line := lines[i];
      OpenedStep(lines, header, i);
      ExamplesStep(lines, header, i);
      StopStep(lines, header, stop, i);
      if StartsWith(line, header) {
        inSection := true;
      } else if StartsWith(line, stop) {
        break;
      } else if inSection {
        var e := Example(line);
        if e.Some? {
          examples := examples + [e.value];
        }
      }
      i := i + 1;
    }
    assert StopAt(lines, header, stop) == i;
  }

  // ---------------------------------------------------------------- lookups

  /** The answer for a key that is not there. */
  function NotFound(kind: string, key: string): string {
    kind + " '" + key + "' not found."
  }

  /** No colon occurs in `s` before the end of `key`'s copy, when `s` opens
      with a colon-free `prefix` followed by `key`, and `key` also opens `s`. */
  lemma {:induction false} NoColonBefore(s: string, prefix: string, key: string, p: nat)
    requires ':' !in prefix && prefix != []
    requires |prefix| + |key| <= |s| && s[..|prefix|] == prefix && s[|prefix|..|prefix| + |key|] == key
    requires |key| <= |s| && s[..|key|] == key
    requires p < |prefix| + |key|
    ensures s[p] != ':'
    decreases p
  {
    if p < |prefix| {
      assert s[p] == prefix[p];
    } else {
      assert s[p] == key[p - |prefix|];
      assert key[p - |prefix|] == s[p - |prefix|];
      NoColonBefore(s, prefix, key, p - |prefix|);
    }
  }

  /** A found answer `key: description` never reads as the not-found sentence. */
  lemma FoundIsNotNotFound(kind: string, key: string, desc: string)
    requires ':' !in kind
    ensures key + ": " + desc != NotFound(kind, key)
  {
    var r := key + ": " + desc;
    var s := NotFound(kind, key);
    var prefix := kind + " '";
    assert r[|key|] == ':';
    if r == s {
      assert s[..|prefix|] == prefix && s[|prefix|..|prefix| + |key|] == key;
      assert s[..|key|] == r[..|key|] == key;
      assert ':' !in prefix;
      NoColonBefore(s, prefix, key, |key|);
    }
  }

  /** `format_command_help` / `format_option_help`: `key: description`, or
      the not-found sentence; the two answers can never be confused. */
  function Describe(entries: map<string, string>, kind: string, key: string): (r: string)
    requires ':' !in kind
    ensures key in entries ==> StartsWith(r, key + ": ") && EndsWith(r, entries[key])
    ensures key in entries ==> r == key + ": " + entries[key]
    ensures r == NotFound(kind, key) <==> key !in entries
  {
    if key in entries then
      var r := key + ": " + entries[key];
      FoundIsNotNotFound(kind, key, entries[key]);
      assert r[..|key| + 2] == key + ": ";
      assert r[|r| - |entries[key]|..] == entries[key];
      r
    else NotFound(kind, key)
  }

  /** `HelpManager`: the text, read once, and what the three loops found in it. */
  class HelpManager {
    var helpContent: string
    var commands: map<string, string>
    var options: map<string, string>
    var examples: seq<string>

    /** `__init__`, with the content of the help file given. */
    constructor (file: Option<string>)
      ensures helpContent == LoadHelpContent(file)
      ensures commands == EntriesOf(helpContent, "Commands:", "Options:")
      ensures options == EntriesOf(helpContent, "Options:", "Examples:")
      ensures examples == ExamplesOf(helpContent)
    {
      var content := LoadHelpContent(file);
      var c := ParseEntries(content, "Commands:", "Options:");
      var o := ParseEntries(content, "Options:", "Examples:");
      var e := ParseExamples(content);
      helpContent, commands, options, examples := content, c, o, e;
    }

    /** `format_command_help(command)` */
    function FormatCommandHelp(command: string): (r: string)
      reads this
      ensures command in commands ==> StartsWith(r, command + ": ") && EndsWith(r, commands[command])
      ensures command in commands ==> r == command + ": " + commands[command]
      ensures r == "Command '" + command + "' not found." <==> command !in commands
    {
      Describe(commands, "Command", command)
    }

    /** `format_option_help(option)` */
    function FormatOptionHelp(option: string): (r: string)
      reads this
      ensures option in options ==> StartsWith(r, option + ": ") && EndsWith(r, options[option])
      ensures option in options ==> r == option + ": " + options[option]
      ensures r == "Option '" + option + "' not found." <==> option !in options
    {
      Describe(options, "Option", option)
    }
  }
}
