/** The aggregator goroutine of `main`: a fold over the result messages in the
    order it receives them.  A failed upload is reported on the error stream
    and makes the status 20 for good; a successful one increments the counter
    and is reported with the counter and the number of files. */
module Aggregator {
  import opened Wrappers
  import opened Pool
  import Strings

  /** The process status when every upload succeeded, and when at least one failed. */
  const StatusOk := 0
  const StatusUploadFailed := 20

  datatype Report =
    | Uploaded(file: string, n: nat, total: nat) // standard output: `<file> is uploaded (<n>/<total>)`
    | Failed(file: string, err: string)          // standard error: `<file>: <err>`

  /** The aggregator's variables: `statusCode`, `cnt`, and the lines printed so far. */
  datatype Status = Status(code: int, cnt: nat, reports: seq<Report>)

  const Initial := Status(StatusOk, 0, [])

  /** One iteration of the aggregator loop. */
  function Receive(st: Status, m: InfoMsg, total: nat): (st': Status)
    ensures m.err.Some? ==> st'.code == StatusUploadFailed && st'.cnt == st.cnt
    ensures m.err.None? ==> st'.code == st.code && st'.cnt == st.cnt + 1
    ensures |st'.reports| == |st.reports| + 1 && st'.reports[..|st.reports|] == st.reports
  {
    match m.err
    case Some(e) =>
      st.(code := StatusUploadFailed, reports := st.reports + [Failed(m.fileName, e)])
    case None =>
      var cnt := st.cnt + 1;
      st.(cnt := cnt, reports := st.reports + [Uploaded(m.fileName, cnt, total)])
  }

  /** The aggregator's state after it has received `msgs`, in that order. */
  function Aggregate(msgs: seq<InfoMsg>, total: nat): (st: Status)
    ensures |st.reports| == |msgs|
    ensures st.cnt <= |msgs|
    ensures st.code == StatusOk || st.code == StatusUploadFailed
  {
    if |msgs| == 0 then Initial
    else Receive(Aggregate(msgs[..|msgs| - 1], total), msgs[|msgs| - 1], total)
  }

  // ---------------------------------------------------------------------------
  // Reference definitions, independent of the loop.
  // ---------------------------------------------------------------------------

  /** The number of successful messages. */
  function Successes(msgs: seq<InfoMsg>): nat {
    if |msgs| == 0 then 0
    else (if msgs[0].err.None? then 1 else 0) + Successes(msgs[1..])
  }

  predicate HasFailure(msgs: seq<InfoMsg>) {
    exists i :: 0 <= i < |msgs| && msgs[i].err.Some?
  }

  /** The counters printed on standard output, in printing order. */
  function Progress(reports: seq<Report>): seq<nat> {
    if |reports| == 0 then []
    else Progress(reports[..|reports| - 1]) + (if reports[|reports| - 1].Uploaded? then [reports[|reports| - 1].n] else [])
  }

  /** `1, 2, ..., k` */
  function CountUp(k: nat): (r: seq<nat>)
    ensures |r| == k && forall i :: 0 <= i < k ==> r[i] == i + 1
  {
    seq(k, i => i + 1)
  }

  // ---------------------------------------------------------------------------
  // Lemmas about the reference definitions.
  // ---------------------------------------------------------------------------

  lemma {:induction false} SuccessesAppend(a: seq<InfoMsg>, b: seq<InfoMsg>)
    ensures Successes(a + b) == Successes(a) + Successes(b)
  {
    if |a| > 0 {
      assert (a + b)[1..] == a[1..] + b;
      SuccessesAppend(a[1..], b);
    } else {
      assert a + b == b;
    }
  }

  lemma {:induction false} SuccessesAtMost(msgs: seq<InfoMsg>)
    ensures Successes(msgs) <= |msgs|
    ensures Successes(msgs) == |msgs| <==> !HasFailure(msgs)
  {
    if |msgs| > 0 {
      SuccessesAtMost(msgs[1..]);
      assert HasFailure(msgs) <==> msgs[0].err.Some? || HasFailure(msgs[1..]) by {
        if HasFailure(msgs[1..]) {
          var i :| 0 <= i < |msgs[1..]| && msgs[1..][i].err.Some?;
          assert msgs[i + 1].err.Some?;
        }
        if HasFailure(msgs) && msgs[0].err.None? {
          var i :| 0 <= i < |msgs| && msgs[i].err.Some?;
          assert msgs[1..][i - 1].err.Some?;
        }
      }
    }
  }

  /** Taking out the message at `j` takes out its contribution to the count. */
  lemma SuccessesRemove(b: seq<InfoMsg>, j: nat)
    requires j < |b|
    ensures Successes(b) == (if b[j].err.None? then 1 else 0) + Successes(b[..j] + b[j + 1..])
  {
    var pre, rest := b[..j], b[j..];
    assert b == pre + rest;
    assert rest[0] == b[j] && rest[1..] == b[j + 1..];
    SuccessesAppend(pre, rest);
    SuccessesAppend(pre, b[j + 1..]);
  }

  /** Removing the same element from two equal multisets leaves equal multisets. */
  lemma MultisetRemove(a: seq<InfoMsg>, b: seq<InfoMsg>, j: nat)
    requires |a| > 0 && j < |b| && b[j] == a[0] && multiset(a) == multiset(b)
    ensures multiset(a[1..]) == multiset(b[..j] + b[j + 1..])
  {
    var m := a[0];
    var b' := b[..j] + b[j + 1..];
    assert b == b[..j] + [m] + b[j + 1..];
    assert a == [m] + a[1..];
    assert multiset(b) == multiset(b[..j]) + multiset{m} + multiset(b[j + 1..]);
    assert multiset(b') == multiset(b[..j]) + multiset(b[j + 1..]);
    assert multiset(a) == multiset{m} + multiset(a[1..]);
    forall x
      ensures multiset(a[1..])[x] == multiset(b')[x]
    {
      assert multiset(a)[x] == multiset(b)[x];
    }
  }

  /** The number of successes does not depend on the order of the messages. */
  lemma {:induction false} SuccessesPermutation(a: seq<InfoMsg>, b: seq<InfoMsg>)
    requires multiset(a) == multiset(b)
    ensures Successes(a) == Successes(b)
    decreases |a|
  {
    if |a| > 0 {
      assert a[0] in multiset(b);
      var j :| 0 <= j < |b| && b[j] == a[0];
      MultisetRemove(a, b, j);
      SuccessesPermutation(a[1..], b[..j] + b[j + 1..]);
      SuccessesRemove(b, j);
    } else {
      assert |multiset(b)| == 0;
    }
  }

  /** Whether some upload failed does not depend on the order of the messages. */
  lemma FailurePermutation(a: seq<InfoMsg>, b: seq<InfoMsg>)
    requires multiset(a) == multiset(b)
    ensures HasFailure(a) <==> HasFailure(b)
  {
    if HasFailure(a) {
      var i :| 0 <= i < |a| && a[i].err.Some?;
      assert a[i] in multiset(b);
      var j :| 0 <= j < |b| && b[j] == a[i];
    }
    if HasFailure(b) {
      var i :| 0 <= i < |b| && b[i].err.Some?;
      assert b[i] in multiset(a);
      var j :| 0 <= j < |a| && a[j] == b[i];
    }
  }

  // ---------------------------------------------------------------------------
  // What the fold computes.
  // ---------------------------------------------------------------------------

  /** The counter ends at the number of successful messages; one line per message. */
  lemma {:induction false} AggregateCount(msgs: seq<InfoMsg>, total: nat)
    ensures Aggregate(msgs, total).cnt == Successes(msgs)
    ensures |Aggregate(msgs, total).reports| == |msgs|
  {
    if |msgs| > 0 {
      var init := msgs[..|msgs| - 1];
      var last := msgs[|msgs| - 1];
      AggregateCount(init, total);
      assert msgs == init + [last];
      SuccessesAppend(init, [last]);
      assert Successes([last]) == (if last.err.None? then 1 else 0) by {
        assert [last][1..] == [];
      }
    }
  }

  /** The counter ends at the number of successful messages, and the status is
      20 exactly when some message carries an error, wherever it occurs. */
  lemma {:induction false} AggregateMeaning(msgs: seq<InfoMsg>, total: nat)
    ensures Aggregate(msgs, total).cnt == Successes(msgs)
    ensures Aggregate(msgs, total).code == (if HasFailure(msgs) then StatusUploadFailed else StatusOk)
    ensures |Aggregate(msgs, total).reports| == |msgs|
  {
    AggregateCount(msgs, total);
    if |msgs| > 0 {
      var init := msgs[..|msgs| - 1];
      var last := msgs[|msgs| - 1];
      AggregateMeaning(init, total);
      assert msgs == init + [last];
      assert HasFailure(msgs) <==> HasFailure(init) || last.err.Some? by {
        if HasFailure(init) {
          var i :| 0 <= i < |init| && init[i].err.Some?;
          assert msgs[i].err.Some?;
        }
      }
    }
  }

  /** Line `r` reports message `m`: an error line with its error, or a progress
      line with counter `n` out of `total`. */
  predicate Mirrors(r: Report, m: InfoMsg, n: nat, total: nat) {
    && r.file == m.fileName
    && (r.Failed? <==> m.err.Some?)
    && (r.Failed? ==> r.err == m.err.value)
    && (r.Uploaded? ==> r.n == n && r.total == total)
  }

  /** The i-th line reports the i-th message: an error line for an error, and
      otherwise a progress line whose counter is the number of successes among
      the first i + 1 messages. */
  lemma {:induction false} AggregateReports(msgs: seq<InfoMsg>, total: nat)
    ensures |Aggregate(msgs, total).reports| == |msgs|
    ensures forall i :: 0 <= i < |msgs| ==>
              Mirrors(Aggregate(msgs, total).reports[i], msgs[i], Successes(msgs[..i + 1]), total)
  {
    AggregateCount(msgs, total);
    if |msgs| > 0 {
      var init := msgs[..|msgs| - 1];
      var before := Aggregate(init, total);
      var reports := Aggregate(msgs, total).reports;
      AggregateReports(init, total);
      AggregateCount(init, total);
      assert reports[..|init|] == before.reports;
      forall i | 0 <= i < |msgs|
        ensures Mirrors(reports[i], msgs[i], Successes(msgs[..i + 1]), total)
      {
        if i < |init| {
          assert reports[i] == before.reports[i];
          assert msgs[i] == init[i] && msgs[..i + 1] == init[..i + 1];
        } else {
          assert msgs[..i + 1] == msgs;
        }
      }
    }
  }

  lemma ProgressStep(st: Status, m: InfoMsg, total: nat)
    ensures Progress(Receive(st, m, total).reports) == Progress(st.reports) + (if m.err.None? then [st.cnt + 1] else [])
  {
    var r := Receive(st, m, total).reports;
    assert r[..|r| - 1] == st.reports;
  }

  /** The progress lines count 1, 2, ..., up to the number of successes, in
      printing order, whatever the order of the messages. */
  lemma {:induction false} ProgressCountsUp(msgs: seq<InfoMsg>, total: nat)
    ensures Progress(Aggregate(msgs, total).reports) == CountUp(Successes(msgs))
  {
    AggregateCount(msgs, total);
    if |msgs| > 0 {
      var init := msgs[..|msgs| - 1];
      var last := msgs[|msgs| - 1];
      var before := Aggregate(init, total);
      assert Aggregate(msgs, total) == Receive(before, last, total);
      ProgressCountsUp(init, total);
      AggregateCount(init, total);
      ProgressStep(before, last, total);
      if last.err.None? {
        CountUpNext(before.cnt);
      }
    }
  }

  lemma CountUpNext(k: nat)
    ensures CountUp(k) + [k + 1] == CountUp(k + 1)
  {
  }

  /** Once the status is 20 it stays 20, whatever is received afterwards. */
  lemma {:induction false} StatusSticky(msgs: seq<InfoMsg>, more: seq<InfoMsg>, total: nat)
    requires Aggregate(msgs, total).code == StatusUploadFailed
    ensures Aggregate(msgs + more, total).code == StatusUploadFailed
  {
    AggregateMeaning(msgs, total);
    AggregateMeaning(msgs + more, total);
    var i :| 0 <= i < |msgs| && msgs[i].err.Some?;
    assert (msgs + more)[i] == msgs[i];
  }

  /** The counter never decreases and never grows by more than one per message. */
  lemma CounterMonotone(msgs: seq<InfoMsg>, more: seq<InfoMsg>, total: nat)
    ensures Aggregate(msgs, total).cnt <= Aggregate(msgs + more, total).cnt <= Aggregate(msgs, total).cnt + |more|
  {
    AggregateMeaning(msgs, total);
    AggregateMeaning(msgs + more, total);
    SuccessesAppend(msgs, more);
    SuccessesAtMost(more);
  }

  /** Receiving the same messages in another order gives the same counter and
      the same status. */
  lemma AggregateOrderIndependent(a: seq<InfoMsg>, b: seq<InfoMsg>, total: nat)
    requires multiset(a) == multiset(b)
    ensures Aggregate(a, total).cnt == Aggregate(b, total).cnt
    ensures Aggregate(a, total).code == Aggregate(b, total).code
  {
    AggregateMeaning(a, total);
    AggregateMeaning(b, total);
    SuccessesPermutation(a, b);
    FailurePermutation(a, b);
  }

  /** A single failed upload among successes makes the status 20 wherever it
      arrives, and costs the counter exactly one. */
  lemma SingleFailureAnywhere(before: seq<InfoMsg>, failed: InfoMsg, after: seq<InfoMsg>, total: nat)
    requires !HasFailure(before) && !HasFailure(after) && failed.err.Some?
    ensures Aggregate(before + [failed] + after, total).code == StatusUploadFailed
    ensures Aggregate(before + [failed] + after, total).cnt == |before| + |after|
  {
    var msgs := before + [failed] + after;
    AggregateMeaning(msgs, total);
    assert msgs[|before|] == failed;
    SuccessesAtMost(before);
    SuccessesAtMost(after);
    SuccessesAppend(before + [failed], after);
    SuccessesAppend(before, [failed]);
    assert Successes([failed]) == 0 by {
      assert [failed][1..] == [];
    }
  }

  /** The status is 0 exactly when every message was a success, and the counter
      never exceeds the number of messages. */
  lemma StatusOkIffAllUploaded(msgs: seq<InfoMsg>, total: nat)
    ensures Aggregate(msgs, total).cnt <= |msgs|
    ensures Aggregate(msgs, total).code == StatusOk <==> Aggregate(msgs, total).cnt == |msgs|
  {
    AggregateMeaning(msgs, total);
    SuccessesAtMost(msgs);
  }

  function ReportFiles(reports: seq<Report>): (names: seq<string>)
    ensures |names| == |reports| && forall i :: 0 <= i < |reports| ==> names[i] == reports[i].file
  {
    seq(|reports|, i requires 0 <= i < |reports| => reports[i].file)
  }

  /** The lines name the received files in receiving order; the status is 20
      exactly when some line is an error line, and 0 exactly when all are
      progress lines. */
  lemma ReportsMirrorMessages(msgs: seq<InfoMsg>, total: nat)
    ensures ReportFiles(Aggregate(msgs, total).reports) == Names(msgs)
    ensures var st := Aggregate(msgs, total);
      && (st.code == StatusUploadFailed <==> exists i :: 0 <= i < |st.reports| && st.reports[i].Failed?)
      && (st.code == StatusOk <==> forall i :: 0 <= i < |st.reports| ==> st.reports[i].Uploaded?)
  {
    AggregateMeaning(msgs, total);
    AggregateReports(msgs, total);
    var reports := Aggregate(msgs, total).reports;
    if HasFailure(msgs) {
      var i :| 0 <= i < |msgs| && msgs[i].err.Some?;
      assert reports[i].Failed?;
    }
  }

  // ---------------------------------------------------------------------------
  // The printed text.
  // ---------------------------------------------------------------------------

  function DigitChar(d: nat): char
    requires d < 10
  {
    ['0', '1', '2', '3', '4', '5', '6', '7', '8', '9'][d]
  }

  /** `%d` of a non-negative number. */
  function Decimal(n: nat): (s: string)
    ensures |s| > 0 && forall i :: 0 <= i < |s| ==> '0' <= s[i] <= '9'
    ensures |s| > 1 ==> s[0] != '0'
  {
    if n < 10 then [DigitChar(n)] else Decimal(n / 10) + [DigitChar(n % 10)]
  }

  /** The value of a string of decimal digits. */
  function DigitsValue(s: string): nat
    requires forall i :: 0 <= i < |s| ==> '0' <= s[i] <= '9'
  {
    if |s| == 0 then 0 else 10 * DigitsValue(s[..|s| - 1]) + (s[|s| - 1] - '0') as nat
  }

  /** The printed counters read back as the numbers they print. */
  lemma {:induction false} DecimalRoundTrip(n: nat)
    ensures DigitsValue(Decimal(n)) == n
  {
    if n >= 10 {
      DecimalRoundTrip(n / 10);
      var s := Decimal(n);
      assert s[..|s| - 1] == Decimal(n / 10);
    }
  }

  /** The line the aggregator prints for one report, without the newline: it
      starts with the file's name, and a progress line ends with its counter
      and the number of files. */
  function Line(r: Report): (line: string)
    ensures |line| > |r.file| && line[..|r.file|] == r.file
  {
    match r
    case Uploaded(file, n, total) => ProgressText(file, Decimal(n), Decimal(total))
    case Failed(file, err) => file + ": " + err
  }

  const ProgressInfix := " is uploaded ("

  /** `<file> is uploaded (<n>/<total>)` with the counters already printed. */
  function ProgressText(file: string, n: string, total: string): string {
    file + ProgressInfix + n + "/" + total + ")"
  }

  predicate AllDigits(s: string) {
    |s| > 0 && forall i :: 0 <= i < |s| ==> '0' <= s[i] <= '9'
  }

  /** The shape of a progress line around its last `(` and last `/`. */
  predicate ProgressShape(line: string, open: nat, slash: nat) {
    && |ProgressInfix| - 1 <= open < slash < |line| - 1 && line[|line| - 1] == ')'
    && line[open + 1 - |ProgressInfix|..open + 1] == ProgressInfix
    && AllDigits(line[open + 1..slash]) && AllDigits(line[slash + 1..|line| - 1])
  }

  /** The file, counter and number of files of a line of that shape. */
  function ProgressFields(line: string, open: nat, slash: nat): (string, nat, nat)
    requires ProgressShape(line, open, slash)
  {
    (line[..open + 1 - |ProgressInfix|], DigitsValue(line[open + 1..slash]), DigitsValue(line[slash + 1..|line| - 1]))
  }

  /** Reads a progress line back: the counters are the digits after the last
      `(` and around the last `/`; the file name is what precedes ` is uploaded (`. */
  function ParseProgress(line: string): Option<(string, nat, nat)> {
    match (Strings.LastIndexOf(line, '('), Strings.LastIndexOf(line, '/'))
    case (Some(open), Some(slash)) =>
      if ProgressShape(line, open, slash) then Some(ProgressFields(line, open, slash)) else None
    case _ => None
  }

  /** With its last `(` and last `/` where the shape expects them, a line parses to its fields. */
  lemma ParseProgressAt(line: string, open: nat, slash: nat)
    requires Strings.LastIndexOf(line, '(') == Some(open) && Strings.LastIndexOf(line, '/') == Some(slash)
    requires ProgressShape(line, open, slash)
    ensures ParseProgress(line) == Some(ProgressFields(line, open, slash))
  {
  }

  /** Where the pieces of a progress line sit. */
  lemma ProgressSlices(file: string, n: string, total: string)
    ensures var line := ProgressText(file, n, total);
      && |line| == |file| + |ProgressInfix| + |n| + |total| + 2
      && line[..|file|] == file
      && line[|file|..|file| + |ProgressInfix|] == ProgressInfix
      && line[|file| + |ProgressInfix|..] == n + ("/" + (total + ")"))
  {
    var line := ProgressText(file, n, total);
    assert line == (file + ProgressInfix) + (n + ("/" + (total + ")")));
  }

  /** In the part after ` is uploaded (`, the counters sit around the `/`. */
  lemma CountersSlices(rest: string, n: string, total: string)
    requires AllDigits(n) && AllDigits(total) && rest == n + ("/" + (total + ")"))
    ensures rest[..|n|] == n && rest[|n|] == '/' && rest[|n| + 1..|rest| - 1] == total && rest[|rest| - 1] == ')'
    ensures '(' !in rest && '/' !in rest[|n| + 1..]
  {
    assert rest[|n| + 1..] == total + ")";
  }

  /** The counters hold no `(`, so the last `(` is the one ending ` is uploaded (`. */
  lemma LastParen(line: string, head: nat, n: string, total: string)
    requires AllDigits(n) && AllDigits(total)
    requires 0 < head <= |line| && line[head - 1] == '(' && line[head..] == n + ("/" + (total + ")"))
    ensures Strings.LastIndexOf(line, '(') == Some(head - 1)
  {
    assert '(' !in line[head..] by {
      CountersSlices(line[head..], n, total);
    }
    Strings.LastIndexOfLast(line, '(', head - 1);
  }

  /** The number of files holds no `/`, so the `/` before it is the last one. */
  lemma LastSlash(line: string, j: nat, total: string)
    requires AllDigits(total)
    requires j < |line| && line[j] == '/' && line[j + 1..] == total + ")"
    ensures Strings.LastIndexOf(line, '/') == Some(j)
  {
    DigitsClose(total, '/');
    Strings.LastIndexOfLast(line, '/', j);
  }

  /** A printed counter and the closing `)` hold no other punctuation. */
  lemma DigitsClose(total: string, c: char)
    requires AllDigits(total) && !('0' <= c <= '9') && c != ')'
    ensures c !in total + ")"
  {
    var s := total + ")";
    forall i | 0 <= i < |s|
      ensures s[i] != c
    {
      if i < |total| {
        assert s[i] == total[i];
      }
    }
  }

  /** Such a line has the shape `ParseProgress` expects, with these fields. */
  lemma ProgressShapeOf(line: string, file: string, n: string, total: string)
    requires AllDigits(n) && AllDigits(total)
    requires |line| == |file| + |ProgressInfix| + |n| + |total| + 2
    requires line[..|file|] == file && line[|file|..|file| + |ProgressInfix|] == ProgressInfix
    requires line[|file| + |ProgressInfix|..] == n + ("/" + (total + ")"))
    ensures var head := |file| + |ProgressInfix|;
      && ProgressShape(line, head - 1, head + |n|)
      && ProgressFields(line, head - 1, head + |n|) == (file, DigitsValue(n), DigitsValue(total))
  {
    var head := |file| + |ProgressInfix|;
    var open, slash := head - 1, head + |n|;
    var rest := line[head..];
    CountersSlices(rest, n, total);
    assert line[open + 1..slash] == rest[..|n|];
    assert line[slash + 1..|line| - 1] == rest[|n| + 1..|rest| - 1];
    assert line[|line| - 1] == rest[|rest| - 1];
  }

  /** A line made of a file name, ` is uploaded (`, and the printed counters parses back to them. */
  lemma ParseProgressOf(line: string, file: string, n: string, total: string)
    requires AllDigits(n) && AllDigits(total)
    requires |line| == |file| + |ProgressInfix| + |n| + |total| + 2
    requires line[..|file|] == file && line[|file|..|file| + |ProgressInfix|] == ProgressInfix
    requires line[|file| + |ProgressInfix|..] == n + ("/" + (total + ")"))
    ensures ParseProgress(line) == Some((file, DigitsValue(n), DigitsValue(total)))
  {
    var head := |file| + |ProgressInfix|;
    assert line[head - 1] == line[|file|..head][|ProgressInfix| - 1];
    LastParen(line, head, n, total);
    var rest := line[head..];
    assert line[head + |n|] == rest[|n|] && line[head + |n| + 1..] == rest[|n| + 1..];
    assert rest[|n|] == '/' && rest[|n| + 1..] == total + ")";
    LastSlash(line, head + |n|, total);
    ProgressShapeOf(line, file, n, total);
    ParseProgressAt(line, head - 1, head + |n|);
  }

  lemma DecimalDigits(n: nat)
    ensures AllDigits(Decimal(n))
  {
  }

  /** A progress line gives back its file, counter and number of files, whatever
      characters the file name holds. */
  lemma ProgressLineRoundTrip(file: string, n: nat, total: nat)
    ensures ParseProgress(Line(Uploaded(file, n, total))) == Some((file, n, total))
  {
    var a, b := Decimal(n), Decimal(total);
    DecimalDigits(n);
    DecimalDigits(total);
    ProgressSlices(file, a, b);
    ParseProgressOf(ProgressText(file, a, b), file, a, b);
    DecimalRoundTrip(n);
    DecimalRoundTrip(total);
  }
}
