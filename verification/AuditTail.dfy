/**
  Reading the last complete line of the audit log backwards in chunks
  (internal/audit/logger.go, readLastCompleteLine).
 */
module AuditTail {
  import opened Wrappers
  import opened Spaces

  // ----- trimming -----

  /** The bytes bytes.TrimRight is given. */
  predicate IsBlank(c: char) {
    c == ' ' || c == '\t' || c == '\r' || c == '\n'
  }

  /** How much of s[..n] is left once its trailing blanks are cut. */
  function TrimmedLength(s: string, n: nat): (m: nat)
    requires n <= |s|
    ensures m <= n
    ensures m > 0 ==> !IsBlank(s[m - 1])
    ensures forall i :: m <= i < n ==> IsBlank(s[i])
  {
    if n > 0 && IsBlank(s[n - 1]) then TrimmedLength(s, n - 1) else n
  }

  function TrimRight(s: string): string {
    s[..TrimmedLength(s, |s|)]
  }

  function TrimSpaceRight(s: string): string {
    if s != "" && IsSpace(s[|s| - 1]) then TrimSpaceRight(s[..|s| - 1]) else s
  }

  function TrimSpaceLeft(s: string): string {
    if s != "" && IsSpace(s[0]) then TrimSpaceLeft(s[1..]) else s
  }

  function TrimSpace(s: string): string {
    TrimSpaceLeft(TrimSpaceRight(s))
  }

  ghost predicate AllBlank(s: string) {
    forall i :: 0 <= i < |s| ==> IsBlank(s[i])
  }

  // ----- the reference: one forward pass over the whole file -----

  /** The line being read and the last line seen that was not blank. */
  datatype Scanner = Scanner(line: string, last: string)

  function Finish(sc: Scanner): string {
    if TrimRight(sc.line) == "" then sc.last else sc.line
  }

  function Feed(sc: Scanner, c: char): Scanner {
    if c == '\n' then Scanner("", Finish(sc)) else sc.(line := sc.line + [c])
  }

  function FeedAll(sc: Scanner, s: string): Scanner {
    if s == "" then sc else Feed(FeedAll(sc, s[..|s| - 1]), s[|s| - 1])
  }

  /** The last line of the file that is not blank, without surrounding space; empty if there is none. */
  function LastLine(file: string): string {
    TrimSpace(Finish(FeedAll(Scanner("", ""), file)))
  }

  datatype TailError = IncompleteTail

  function TailOf(file: string): Result<string, TailError> {
    if file == "" then Ok("")
    else if file[|file| - 1] != '\n' then Err(IncompleteTail)
    else Ok(LastLine(file))
  }

  // ----- the chunked reader -----

  /** The last newline among s[..n]. */
  function LastNewlineBefore(s: string, n: nat): (i: int)
    requires n <= |s|
    ensures -1 <= i < n
    ensures i >= 0 ==> s[i] == '\n'
    ensures forall j :: i < j < n ==> s[j] != '\n'
  {
    if n == 0 then -1 else if s[n - 1] == '\n' then n - 1 else LastNewlineBefore(s, n - 1)
  }

  function LastNewline(s: string): (i: int)
    ensures -1 <= i < |s|
  {
    LastNewlineBefore(s, |s|)
  }

  lemma PrependChunk(file: string, at: nat, mid: nat)
    requires at <= mid <= |file|
    ensures file[at..mid] + file[mid..] == file[at..]
  {
  }

  /** The backward loop: chunks are put in front until the text holds a newline before something not blank. */
  method ReadBack(file: string, chunkSize: nat) returns (data: string, ghost remaining: nat)
    requires chunkSize > 0 && file != ""
    ensures remaining <= |file| && data == file[remaining..]
    ensures remaining == 0 || LastNewline(TrimRight(data)) >= 0
  {
    var left := |file|;
    data := "";
    while left > 0
      invariant 0 <= left <= |file| && data == file[left..]
    {
      var n := if left < chunkSize then left else chunkSize;
      PrependChunk(file, left - n, left);
      data := file[left - n..left] + data;
      left := left - n;
      var content := TrimRight(data);
      if left == 0 || (|content| > 0 && LastNewline(content) >= 0) {
        return data, left;
      }
    }
    remaining := left;
  }

  method ReadLastCompleteLine(file: string, chunkSize: nat) returns (r: Result<string, TailError>)
    requires chunkSize > 0
    ensures r == TailOf(file)
  {
    if |file| == 0 {
      return Ok("");
    }
    if file[|file| - 1] != '\n' {
      return Err(IncompleteTail);
    }
    var data, remaining := ReadBack(file, chunkSize);
    TailSuffices(file, remaining);
    var content := TrimRight(data);
    if |content| == 0 {
      return Ok("");
    }
    var idx := LastNewline(content);
    return Ok(TrimSpace(content[idx + 1..]));
  }

  // ----- why the tail suffices -----

  lemma {:induction false} FeedAppend(sc: Scanner, a: string, b: string)
    ensures FeedAll(sc, a + b) == FeedAll(FeedAll(sc, a), b)
  {
    if b == "" {
      assert a + b == a;
    } else {
      var n := |b| - 1;
      assert (a + b)[..|a + b| - 1] == a + b[..n];
      FeedAppend(sc, a, b[..n]);
    }
  }

  lemma {:induction false} FeedWithinLine(sc: Scanner, s: string)
    requires '\n' !in s
    ensures FeedAll(sc, s) == sc.(line := sc.line + s)
  {
    if s != "" {
      FeedWithinLine(sc, s[..|s| - 1]);
      assert s == s[..|s| - 1] + [s[|s| - 1]];
      assert sc.line + s == sc.line + s[..|s| - 1] + [s[|s| - 1]];
    }
  }

  /** Blank text after a line that is not blank leaves that line the answer, but for its trailing blanks. */
  lemma {:induction false} FeedBlanks(sc: Scanner, w: string)
    requires AllBlank(w) && TrimRight(sc.line) != ""
    ensures var f := FeedAll(sc, w);
      || (TrimRight(f.line) != "" && TrimSpaceRight(f.line) == TrimSpaceRight(sc.line))
      || (TrimRight(f.line) == "" && TrimSpaceRight(f.last) == TrimSpaceRight(sc.line))
  {
    if w != "" {
      var n := |w| - 1;
      FeedBlanks(sc, w[..n]);
      var f := FeedAll(sc, w[..n]);
      if w[n] != '\n' {
        TrimBlank(f.line, w[n]);
      }
    }
  }

  lemma {:induction false} TrimBlank(s: string, c: char)
    requires IsBlank(c)
    ensures TrimRight(s + [c]) == TrimRight(s)
    ensures TrimSpaceRight(s + [c]) == TrimSpaceRight(s)
  {
    assert (s + [c])[..|s|] == s;
    var m := TrimmedLength(s, |s|);
    assert forall i :: 0 <= i < |s| ==> (s + [c])[i] == s[i];
    TrimmedLengthDetermined(s + [c], |s| + 1, m);
    assert (s + [c])[..m] == s[..m];
  }

  lemma {:induction false} TrimmedLengthDetermined(s: string, n: nat, m: nat)
    requires m <= n <= |s| && (m > 0 ==> !IsBlank(s[m - 1])) && forall i :: m <= i < n ==> IsBlank(s[i])
    ensures TrimmedLength(s, n) == m
  {
  }

  /** Whole lines, then a line that ends in a non-blank, then blanks: the answer is that line. */
  lemma LastLineShape(p: string, l: string, w: string)
    requires p == "" || p[|p| - 1] == '\n'
    requires '\n' !in l && l != "" && !IsBlank(l[|l| - 1]) && AllBlank(w)
    ensures LastLine(p + l + w) == TrimSpace(l)
  {
    var start := Scanner("", "");
    var before := FeedAll(start, p);
    FeedAppend(start, p + l, w);
    FeedAppend(start, p, l);
    FeedWithinLine(before, l);
    assert before.line == "" && before.line + l == l;
    FeedBlanks(before.(line := l), w);
  }

  lemma {:induction false} FeedBlankFile(w: string)
    requires AllBlank(w)
    ensures var f := FeedAll(Scanner("", ""), w); AllBlank(f.line) && f.last == ""
  {
    if w != "" {
      FeedBlankFile(w[..|w| - 1]);
      var line := FeedAll(Scanner("", ""), w[..|w| - 1]).line;
      TrimmedLengthDetermined(line, |line|, 0);
    }
  }

  /** What the reader takes for the last line. */
  function Candidate(tail: string): string {
    var content := TrimRight(tail);
    content[LastNewline(content) + 1..]
  }

  lemma LineHasNoNewline(s: string)
    ensures '\n' !in s[LastNewline(s) + 1..]
  {
  }

  /** The text around that line: whole lines before it, blanks after it. */
  lemma CandidateParts(tail: string) returns (p: string, w: string)
    requires TrimRight(tail) != ""
    ensures tail == p + Candidate(tail) + w
    ensures p == "" || p[|p| - 1] == '\n'
    ensures p == "" ==> LastNewline(TrimRight(tail)) < 0
    ensures var l := Candidate(tail); '\n' !in l && l != "" && !IsBlank(l[|l| - 1])
    ensures AllBlank(w)
  {
    var m := TrimmedLength(tail, |tail|);
    var content := tail[..m];
    var k := LastNewline(content) + 1;
    p, w := content[..k], tail[m..];
    assert !IsBlank(content[m - 1]);
    LineHasNoNewline(content);
    assert content == p + content[k..];
    assert tail == content + w;
  }

  /** A file of blanks has no last line. */
  lemma BlankFileHasNoLine(file: string)
    requires TrimRight(file) == ""
    ensures LastLine(file) == ""
  {
    FeedBlankFile(file);
    var f := FeedAll(Scanner("", ""), file);
    TrimmedLengthDetermined(f.line, |f.line|, 0);
  }

  lemma SuffixParts(file: string, n: nat, p: string, l: string, w: string)
    requires n <= |file| && file[n..] == p + l + w
    ensures file == file[..n] + p + l + w
  {
    assert file == file[..n] + file[n..];
  }

  /** A suffix of the file whose trimmed text reaches back over a newline already shows the last line. */
  lemma TailSuffices(file: string, remaining: nat)
    requires remaining <= |file|
    requires remaining == 0 || LastNewline(TrimRight(file[remaining..])) >= 0
    ensures LastLine(file) == if TrimRight(file[remaining..]) == "" then "" else TrimSpace(Candidate(file[remaining..]))
  {
    var tail := file[remaining..];
    if TrimRight(tail) == "" {
      assert tail == file;
      BlankFileHasNoLine(file);
    } else {
      var p, w := CandidateParts(tail);
      SuffixParts(file, remaining, p, Candidate(tail), w);
      LastLineShape(file[..remaining] + p, Candidate(tail), w);
    }
  }
}
