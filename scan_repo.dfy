/**
 * The bookkeeping of the repository scanner (`tools/scan_repo.py`): the
 * line table of a file and the lookup from a character index to a line
 * number, the snippet window around a match, the 30-line preview of a
 * decoded payload, the directory-skip rule, the per-kind tally and the exit
 * code. The regular expressions, the file system, base64/zlib decoding,
 * the sort and the printing are outside the model: a match is given by its
 * kind, its span and the decoded text of its payload.
 */
module ScanRepo {
  import opened Common

  /** The line boundaries of Python's `str.splitlines`. */
  predicate IsLineBoundary(c: char)
  {
    var n := c as int;
    (10 <= n <= 13) || (28 <= n <= 30) || n == 0x85 || n == 0x2028 || n == 0x2029
  }

  /** Length of the first line of `s[j..]`'s text from `j` on, terminator
      included: a `\r\n` pair ends a line as one terminator. */
  function LineEnd(s: string, j: nat): (n: nat)
    requires j < |s|
    ensures j < n <= |s|
    decreases |s| - j
  {
    if IsLineBoundary(s[j]) then
      (if s[j] == '\r' && j + 1 < |s| && s[j + 1] == '\n' then j + 2 else j + 1)
    else if j + 1 == |s| then |s|
    else LineEnd(s, j + 1)
  }

  /** `s.splitlines(True)`: the lines of `s`, each with its terminator. */
  function SplitLines(s: string): (lines: seq<string>)
    ensures forall i :: 0 <= i < |lines| ==> lines[i] != []
    decreases |s|
  {
    if s == [] then []
    else
      var n := LineEnd(s, 0);
      [s[..n]] + SplitLines(s[n..])
  }

  /** The lines laid end to end. */
  function Concat(lines: seq<string>): (s: string)
  {
    if lines == [] then [] else Concat(lines[..|lines| - 1]) + lines[|lines| - 1]
  }

  lemma {:induction false} ConcatCons(line: string, lines: seq<string>)
    ensures Concat([line] + lines) == line + Concat(lines)
    decreases |lines|
  {
    if lines != [] {
      var init := lines[..|lines| - 1];
      ConcatCons(line, init);
      assert ([line] + lines)[..|lines|] == [line] + init;
    } else {
      assert Concat([line]) == Concat([]) + line;
    }
  }

  /** Splitting with the terminators kept loses nothing: the lines put
      back together are the text. */
  lemma {:induction false} SplitLinesConcat(s: string)
    ensures Concat(SplitLines(s)) == s
    decreases |s|
  {
    if s != [] {
      var n := LineEnd(s, 0);
      SplitLinesConcat(s[n..]);
      ConcatCons(s[..n], SplitLines(s[n..]));
      assert s[..n] + s[n..] == s;
    }
  }

  /** Total length of the lines, the running `start` of `scan_file`. */
  function TotalLength(lines: seq<string>): nat
  {
    if lines == [] then 0 else TotalLength(lines[..|lines| - 1]) + |lines[|lines| - 1]|
  }

  /** The line table of `scan_file`: where each line starts. */
  method LineOffsets(lines: seq<string>) returns (offsets: seq<nat>)
    ensures |offsets| == |lines|
    ensures forall j :: 0 <= j < |lines| ==> offsets[j] == TotalLength(lines[..j])
  {
    offsets := [];
    var start := 0;
    for i := 0 to |lines|
      invariant |offsets| == i && start == TotalLength(lines[..i])
      invariant forall j :: 0 <= j < i ==> offsets[j] == TotalLength(lines[..j])
    {
      offsets := offsets + [start];
      assert lines[..i + 1][..i] == lines[..i];
      start := start + |lines[i]|;
    }
  }

  /** The offsets of non-empty lines start at 0 and strictly increase. */
  lemma OffsetsIncrease(lines: seq<string>, j: nat, k: nat)
    requires forall i :: 0 <= i < |lines| ==> lines[i] != []
    requires j < k <= |lines|
    ensures TotalLength(lines[..j]) < TotalLength(lines[..k])
    decreases k
  {
    assert lines[..k][..k - 1] == lines[..k - 1];
    if j < k - 1 {
      OffsetsIncrease(lines, j, k - 1);
    }
  }

  /** How many leading offsets are at most `idx`. */
  function LeadingAtMost(offsets: seq<nat>, idx: int): (n: nat)
    ensures n <= |offsets|
  {
    if offsets == [] || offsets[0] > idx then 0 else 1 + LeadingAtMost(offsets[1..], idx)
  }

  /** `line_number_from_index`: scans the table and stops at the first line
      starting after `idx`; the answer is at least 1. */
  method LineNumberFromIndex(offsets: seq<nat>, idx: int) returns (lineNo: nat)
    ensures lineNo == if LeadingAtMost(offsets, idx) == 0 then 1 else LeadingAtMost(offsets, idx)
  {
    lineNo := 1;
    for i := 0 to |offsets|
      invariant lineNo == if i == 0 then 1 else i
      invariant LeadingAtMost(offsets, idx) == i + LeadingAtMost(offsets[i..], idx)
    {
      assert offsets[i..][0] == offsets[i] && offsets[i..][1..] == offsets[i + 1..];
      if offsets[i] > idx {
        break;
      }
      lineNo := i + 1;
    }
  }

  /** On a strictly increasing table starting at 0, `idx >= 0` falls in the
      line `n` that the lookup answers: that line starts at or before
      `idx`, and the next one (if any) after it. */
  lemma {:induction false} LineNumberLocates(offsets: seq<nat>, idx: int)
    requires offsets != [] && offsets[0] == 0 && 0 <= idx
    requires forall a, b :: 0 <= a < b < |offsets| ==> offsets[a] < offsets[b]
    ensures var n := LeadingAtMost(offsets, idx);
      1 <= n <= |offsets| && offsets[n - 1] <= idx && (n < |offsets| ==> idx < offsets[n])
  {
    LeadingPrefix(offsets, idx);
  }

  /** For an increasing table, the entries up to `idx` are exactly a prefix. */
  lemma {:induction false} LeadingPrefix(offsets: seq<nat>, idx: int)
    requires forall a, b :: 0 <= a < b < |offsets| ==> offsets[a] < offsets[b]
    ensures var n := LeadingAtMost(offsets, idx);
      (forall a :: 0 <= a < n ==> offsets[a] <= idx) && (n < |offsets| ==> idx < offsets[n])
  {
    if offsets != [] && offsets[0] <= idx {
      var rest := offsets[1..];
      forall a, b | 0 <= a < b < |rest| ensures rest[a] < rest[b] {
        assert rest[a] == offsets[a + 1] && rest[b] == offsets[b + 1];
      }
      LeadingPrefix(rest, idx);
      var n := LeadingAtMost(offsets, idx);
      forall a | 0 <= a < n ensures offsets[a] <= idx {
        if a > 0 {
          assert offsets[a] == rest[a - 1];
        }
      }
    }
  }

  /** Which pattern list a match came from; it decides the snippet margin. */
  datatype Family = Obfuscated | Risky | Network

  /** A regular-expression match: its kind, its span, whether the pattern
      has capturing groups, and what base64 + zlib decoding of group 1
      gives (`None` when decoding fails). */
  datatype Match = Match(family: Family, kind: string, start: nat, end: nat, hasGroups: bool, decoded: Option<string>)

  datatype Finding = Finding(lineNumber: nat, kind: string, snippet: string, decodedPreview: Option<string>)

  /** The context kept on each side of a match. */
  function Margin(family: Family): nat
  {
    if family == Obfuscated then 60 else 40
  }

  /** `content[max(0, idx - margin) : end + margin]`, with Python's clamping
      of a slice end past the text. */
  function Snippet(content: string, start: nat, end: nat, margin: nat): (snippet: string)
    requires start <= end <= |content|
    ensures var lo := if start < margin then 0 else start - margin;
      end - lo <= |snippet| <= |content| - lo
    ensures var lo := if start < margin then 0 else start - margin;
      snippet[start - lo..end - lo] == content[start..end]
    ensures start >= margin ==> snippet[..margin] == content[start - margin..start]
    ensures var lo := if start < margin then 0 else start - margin;
      var after := if |content| - end < margin then |content| - end else margin;
      |snippet| == (end - lo) + after
      && snippet[..start - lo] == content[lo..start]
      && snippet[end - lo..] == content[end..end + after]
  {
    var lo: int := if start < margin then 0 else start - margin;
    var hi: int := if end + margin > |content| then |content| else end + margin;
    var r := content[lo..hi];
    SliceOfSlice(content, lo, hi, start - lo, end - lo);
    SliceOfSlice(content, lo, hi, 0, start - lo);
    SliceOfSlice(content, lo, hi, end - lo, hi - lo);
    r
  }

  /** A slice of a slice is a slice of the whole. */
  lemma SliceOfSlice(s: string, lo: int, hi: int, a: int, b: int)
    requires 0 <= lo <= hi <= |s| && 0 <= a <= b <= hi - lo
    ensures s[lo..hi][a..b] == s[lo + a..lo + b]
  {
    assert forall i :: 0 <= i < b - a ==> s[lo..hi][a..b][i] == s[lo + a + i];
  }

  /** Python's `sep.join(parts)`. */
  function Join(parts: seq<string>, sep: string): string
  {
    if parts == [] then [] else if |parts| == 1 then parts[0] else parts[0] + sep + Join(parts[1..], sep)
  }

  /** Appending one more part to a non-empty join. */
  lemma {:induction false} JoinSnoc(parts: seq<string>, sep: string, last: string)
    requires parts != []
    ensures Join(parts + [last], sep) == Join(parts, sep) + sep + last
    decreases |parts|
  {
    if |parts| == 1 {
      assert parts + [last] == [parts[0], last];
      assert [parts[0], last][1..] == [last];
    } else {
      assert (parts + [last])[0] == parts[0] && (parts + [last])[1..] == parts[1..] + [last];
      JoinSnoc(parts[1..], sep, last);
    }
  }

  /** A line without its terminator. */
  function DropTerminator(line: string): string
  {
    if |line| >= 2 && line[|line| - 2..] == "\r\n" then line[..|line| - 2]
    else if line != [] && IsLineBoundary(line[|line| - 1]) then line[..|line| - 1]
    else line
  }

  /** `s.splitlines()`: the lines without their terminators. */
  function Lines(s: string): (lines: seq<string>)
    ensures |lines| == |SplitLines(s)|
  {
    var kept := SplitLines(s);
    seq(|kept|, i requires 0 <= i < |kept| => DropTerminator(kept[i]))
  }

  const PreviewLimit: nat := 30

  const TruncationMarker: string := "... (truncated)"

  /** The lines a preview shows: the first 30, and a marker line when the
      text had more. */
  function ShownLines(lines: seq<string>): (shown: seq<string>)
    ensures |lines| <= PreviewLimit ==> shown == lines
    ensures |lines| > PreviewLimit ==>
      |shown| == PreviewLimit + 1 && shown[..PreviewLimit] == lines[..PreviewLimit] && shown[PreviewLimit] == TruncationMarker
  {
    if |lines| <= PreviewLimit then lines else lines[..PreviewLimit] + [TruncationMarker]
  }

  /** The truncation of `try_decode_base64_zlib`: the first 30 lines joined
      by newlines, then a newline and the marker if there were more. The
      result is the shown lines joined by newlines. */
  function Preview(text: string): (preview: string)
    ensures preview == Join(ShownLines(Lines(text)), "\n")
  {
    var lines := Lines(text);
    var head := Join(lines[..if |lines| < PreviewLimit then |lines| else PreviewLimit], "\n");
    if |lines| > PreviewLimit then
      JoinSnoc(lines[..PreviewLimit], "\n", TruncationMarker);
      head + "\n" + TruncationMarker
    else
      assert lines[..|lines|] == lines;
      head
  }

  /** `try_decode_base64_zlib` once decoding has been done (or failed). */
  function DecodePreview(decoded: Option<string>): (preview: Option<string>)
    ensures preview.Some? <==> decoded.Some?
  {
    match decoded
    case None => None
    case Some(text) => Some(Preview(text))
  }

  /** The finding a match yields, given the file's line table. */
  function FindingOf(content: string, offsets: seq<nat>, m: Match, doDecode: bool): Finding
    requires m.start <= m.end <= |content|
  {
    var n := LeadingAtMost(offsets, m.start);
    Finding(if n == 0 then 1 else n, m.kind, Snippet(content, m.start, m.end, Margin(m.family)),
            if doDecode && m.hasGroups && m.family == Obfuscated then DecodePreview(m.decoded) else None)
  }

  /** The offsets of `content`'s lines. */
  function OffsetsOf(content: string): seq<nat>
  {
    var lines := SplitLines(content);
    seq(|lines|, j requires 0 <= j < |lines| => TotalLength(lines[..j]))
  }

  /** `scan_file` for a file with `content` whose patterns matched at
      `matches` (in the order the three pattern lists are tried): an empty
      file yields nothing; otherwise each match yields one finding. */
  method ScanFile(content: string, matches: seq<Match>, doDecode: bool) returns (findings: seq<Finding>)
    requires forall i :: 0 <= i < |matches| ==> matches[i].start <= matches[i].end <= |content|
    ensures content == [] ==> findings == []
    ensures content != [] ==>
      |findings| == |matches| && forall i :: 0 <= i < |matches| ==> findings[i] == FindingOf(content, OffsetsOf(content), matches[i], doDecode)
  {
    findings := [];
    if content == [] {
      return;
    }
    var offsets := LineOffsets(SplitLines(content));
    assert offsets == OffsetsOf(content);
    for i := 0 to |matches|
      invariant |findings| == i
      invariant forall j :: 0 <= j < i ==> findings[j] == FindingOf(content, offsets, matches[j], doDecode)
    {
      var m := matches[i];
      var lineNo := LineNumberFromIndex(offsets, m.start);
      var preview := if doDecode && m.hasGroups && m.family == Obfuscated then DecodePreview(m.decoded) else None;
      findings := findings + [Finding(lineNo, m.kind, Snippet(content, m.start, m.end, Margin(m.family)), preview)];
    }
  }

  /** Every finding of a non-empty file names a line of the file, and the
      match starts on that line. */
  lemma FindingLine(content: string, m: Match, doDecode: bool)
    requires content != [] && m.start <= m.end <= |content|
    ensures var f := FindingOf(content, OffsetsOf(content), m, doDecode);
      var lines := SplitLines(content);
      1 <= f.lineNumber <= |lines|
      && TotalLength(lines[..f.lineNumber - 1]) <= m.start
      && (f.lineNumber < |lines| ==> m.start < TotalLength(lines[..f.lineNumber]))
  {
    var lines := SplitLines(content);
    var offsets := OffsetsOf(content);
    assert lines != [];
    forall a, b | 0 <= a < b < |offsets| ensures offsets[a] < offsets[b] {
      OffsetsIncrease(lines, a, b);
    }
    assert lines[..0] == [];
    LineNumberLocates(offsets, m.start);
  }

  /** The directories whose files are skipped. */
  const SkippedDirs: set<string> := {".venv", "venv", "build", "dist", "__pycache__"}

  /** `iter_python_files`' skip rule on the components of a path (the root's
      components included, as `path.parts` has them). */
  predicate Skipped(parts: seq<string>)
  {
    exists i :: 0 <= i < |parts| && parts[i] in SkippedDirs
  }

  /** The files `iter_python_files` yields, in the order they are found. */
  function PythonFiles(paths: seq<seq<string>>): (kept: seq<seq<string>>)
    ensures forall p :: p in kept <==> p in paths && !Skipped(p)
  {
    if paths == [] then []
    else
      var rest := PythonFiles(paths[1..]);
      assert forall p :: p in paths <==> p == paths[0] || p in paths[1..];
      if Skipped(paths[0]) then rest else [paths[0]] + rest
  }

  /** Number of findings of kind `k`. */
  function Count(kinds: seq<string>, k: string): nat
  {
    if kinds == [] then 0
    else Count(kinds[..|kinds| - 1], k) + (if kinds[|kinds| - 1] == k then 1 else 0)
  }

  /** The kinds in order of first appearance, the order of `kinds_count`'s keys. */
  function Distinct(kinds: seq<string>): (ks: seq<string>)
    ensures forall k :: k in ks <==> k in kinds
  {
    if kinds == [] then []
    else
      var init := kinds[..|kinds| - 1];
      var last := kinds[|kinds| - 1];
      assert forall k :: k in kinds <==> k in init || k == last;
      Distinct(init) + (if last in init then [] else [last])
  }

  /** No key occurs twice. */
  predicate NoDuplicates(keys: seq<string>)
  {
    forall a, b :: 0 <= a < b < |keys| ==> keys[a] != keys[b]
  }

  /** The tally over a list of keys. */
  function SumCounts(keys: seq<string>, kinds: seq<string>): nat
  {
    if keys == [] then 0 else SumCounts(keys[..|keys| - 1], kinds) + Count(kinds, keys[|keys| - 1])
  }

  /** The `kinds_count` loop: one increment per finding. */
  method KindsCount(kinds: seq<string>) returns (counts: map<string, nat>)
    ensures forall k :: k in counts <==> k in kinds
    ensures forall k :: k in counts ==> counts[k] == Count(kinds, k)
  {
    counts := map[];
    for i := 0 to |kinds|
      invariant forall k :: k in counts <==> k in kinds[..i]
      invariant forall k :: k in counts ==> counts[k] == Count(kinds[..i], k)
    {
      var k := kinds[i];
      assert kinds[..i + 1][..i] == kinds[..i] && kinds[..i + 1][i] == k;
      if k !in counts {
        CountAbsent(kinds[..i], k);
      }
      counts := counts[k := (if k in counts then counts[k] else 0) + 1];
      assert forall x :: Count(kinds[..i + 1], x) == Count(kinds[..i], x) + (if x == k then 1 else 0);
      assert forall x :: x in kinds[..i + 1] <==> x in kinds[..i] || x == k;
    }
    assert kinds[..|kinds|] == kinds;
  }

  /** Counting one more finding raises the tally over distinct keys by one
      exactly when its kind is among the keys. */
  lemma {:induction false} SumCountsShift(keys: seq<string>, kinds: seq<string>, x: string)
    requires NoDuplicates(keys)
    ensures SumCounts(keys, kinds + [x]) == SumCounts(keys, kinds) + (if x in keys then 1 else 0)
  {
    if keys != [] {
      var init := keys[..|keys| - 1];
      var last := keys[|keys| - 1];
      assert (kinds + [x])[..|kinds|] == kinds;
      SumCountsShift(init, kinds, x);
      assert forall k :: k in keys <==> k in init || k == last;
      if x == last {
        assert x !in init;
      }
    }
  }

  /** The keys of the tally are distinct. */
  lemma {:induction false} DistinctIsDistinct(kinds: seq<string>)
    ensures NoDuplicates(Distinct(kinds))
  {
    if kinds != [] {
      var init := kinds[..|kinds| - 1];
      var last := kinds[|kinds| - 1];
      DistinctIsDistinct(init);
      var d := Distinct(init);
      assert Distinct(kinds) == d + (if last in init then [] else [last]);
      var ks := Distinct(kinds);
      forall a, b | 0 <= a < b < |ks| ensures ks[a] != ks[b] {
        if b == |d| {
          assert last !in init && ks[b] == last;
          assert ks[a] == d[a] && d[a] in init;
        } else {
          assert ks[a] == d[a] && ks[b] == d[b] && d[a] != d[b];
        }
      }
    }
  }

  /** The per-kind counts add up to the number of findings. */
  lemma {:induction false} TallyTotal(kinds: seq<string>)
    ensures SumCounts(Distinct(kinds), kinds) == |kinds|
  {
    if kinds != [] {
      var init := kinds[..|kinds| - 1];
      var last := kinds[|kinds| - 1];
      var d := Distinct(init);
      assert kinds == init + [last];
      TallyTotal(init);
      DistinctIsDistinct(init);
      SumCountsShift(d, init, last);
      if last in init {
        assert Distinct(kinds) == d && last in d;
      } else {
        assert Distinct(kinds) == d + [last] && last !in d;
        SumCountsNew(d, init, last);
      }
    }
  }

  /** Adding a new key whose count is 1 to the tally's list. */
  lemma SumCountsNew(keys: seq<string>, kinds: seq<string>, x: string)
    requires x !in kinds
    ensures SumCounts(keys + [x], kinds + [x]) == SumCounts(keys, kinds + [x]) + 1
  {
    assert (keys + [x])[..|keys|] == keys;
    assert (kinds + [x])[..|kinds|] == kinds;
    CountAbsent(kinds, x);
  }

  /** A kind that never occurs has count 0. */
  lemma {:induction false} CountAbsent(kinds: seq<string>, x: string)
    requires x !in kinds
    ensures Count(kinds, x) == 0
  {
    if kinds != [] {
      CountAbsent(kinds[..|kinds| - 1], x);
    }
  }

  /** `main` after the root check and the scan: 2 for a missing root,
      otherwise 0, with the per-kind tally of the findings when there are any. */
  method ScanMain(rootExists: bool, kinds: seq<string>) returns (code: int, counts: map<string, nat>)
    ensures code == if rootExists then 0 else 2
    ensures !rootExists || kinds == [] ==> counts == map[]
    ensures rootExists && kinds != [] ==>
      (forall k :: k in counts <==> k in kinds) && (forall k :: k in counts ==> counts[k] == Count(kinds, k))
  {
    if !rootExists {
      return 2, map[];
    }
    if kinds == [] {
      return 0, map[];
    }
    counts := KindsCount(kinds);
    code := 0;
  }
}
