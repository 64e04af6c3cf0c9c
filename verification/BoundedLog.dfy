/** The terminal log: appends that keep the file within a limit by dropping whole lines. */
module BoundedLog {
  import opened Wrappers
  import opened Text

  /** The line as written: its end, if it is too long. */
  function Fitted(line: string, limit: nat): string {
    if |line| + 1 > limit then line[SatDrop(|line|, SatDrop(limit, 1))..] else line
  }

  /** Saturating subtraction of lengths. */
  function SatDrop(a: nat, b: nat): (r: nat)
    ensures r <= a
  {
    if b <= a then a - b else 0
  }

  /** Where the kept part of the file starts: at the first line that begins within reach. */
  function KeepFrom(existing: string, keep: nat): (start: nat)
    ensures start <= |existing|
  {
    if |existing| <= keep then 0
    else
      var candidate := |existing| - keep;
      var offset := IndexOf(existing[candidate..], '\n');
      if candidate + offset == |existing| then |existing| else candidate + offset + 1
  }

  function Appended(existing: string, line: string, limit: nat): string {
    var fitted := Fitted(line, limit);
    existing[KeepFrom(existing, SatDrop(limit, |fitted| + 1))..] + fitted + "\n"
  }

  method BoundedLog(existing: string, line: string, limit: nat) returns (output: string)
    ensures output == Appended(existing, line, limit)
    ensures limit >= 1 ==> |output| <= limit
  {
    var fitted := Fitted(line, limit);
    var start := KeepFrom(existing, SatDrop(limit, |fitted| + 1));
    output := [];
    output := output + existing[start..];
    output := output + fitted;
    output := output + ['\n'];
  }

  // ---- one append ----------------------------------------------------------------

  /** `s` starts where a line of `whole` starts, and runs to its end. */
  predicate LineAligned(s: string, whole: string) {
    && |s| <= |whole| && whole[|whole| - |s|..] == s
    && (|s| == |whole| || whole[|whole| - |s| - 1] == '\n')
  }

  predicate EndsLine(s: string) {
    s == [] || s[|s| - 1] == '\n'
  }

  /** The kept part is line-aligned, fits, and no longer aligned part is short enough:
      everything if it fits, and otherwise the longest that is shorter than the room. */
  lemma KeptIsLongest(existing: string, keep: nat, other: string)
    requires EndsLine(existing)
    ensures var kept := existing[KeepFrom(existing, keep)..];
      && LineAligned(kept, existing) && |kept| <= keep
      && (LineAligned(other, existing) && (|other| < keep || |existing| <= keep) ==> |other| <= |kept|)
  {
    if |existing| > keep {
      var candidate := |existing| - keep;
      var tail := existing[candidate..];
      var offset := IndexOf(tail, '\n');
      if LineAligned(other, existing) && |other| < keep {
        var at := |existing| - |other| - 1;
        assert existing[at] == '\n' && at >= candidate;
        FirstIsFirst(tail, at - candidate, '\n');
      }
    }
  }

  lemma {:induction false} FirstIsFirst(s: string, k: nat, c: char)
    requires k < |s| && s[k] == c
    ensures IndexOf(s, c) <= k
    decreases k
  {
    if s[0] != c {
      FirstIsFirst(s[1..], k - 1, c);
    }
  }

  /** An append ends with the written line and stays within the limit. */
  lemma AppendedFits(existing: string, line: string, limit: nat)
    requires limit >= 1
    ensures |Appended(existing, line, limit)| <= limit
    ensures |line| < limit <==> Fitted(line, limit) == line
    ensures EndsLine(Appended(existing, line, limit))
  {
    if |line| >= limit {
      assert |Fitted(line, limit)| == limit - 1;
    }
  }

  // ---- any sequence of appends ---------------------------------------------------

  function Log(seed: string, lines: seq<string>, limit: nat): string
    decreases |lines|
  {
    if lines == [] then seed
    else Appended(Log(seed, lines[..|lines| - 1], limit), lines[|lines| - 1], limit)
  }

  /** Everything ever written. */
  function History(seed: string, lines: seq<string>): string
    decreases |lines|
  {
    if lines == [] then seed else History(seed, lines[..|lines| - 1]) + lines[|lines| - 1] + "\n"
  }

  lemma AlignedSuffixAppends(kept: string, log: string, whole: string, tail: string)
    requires LineAligned(kept, log) && LineAligned(log, whole)
    ensures LineAligned(kept + tail, whole + tail)
  {
    assert log == whole[|whole| - |log|..];
    assert kept == whole[|whole| - |kept|..];
    if |kept| < |log| {
      assert whole[|whole| - |kept| - 1] == log[|log| - |kept| - 1];
    }
  }

  /** With lines shorter than the limit, whatever the file held first: after any
      appends it is within the limit, ends with the newest line whole, and is a
      line-aligned end of everything ever written. */
  lemma {:induction false} LogIsRecentHistory(seed: string, lines: seq<string>, limit: nat)
    requires EndsLine(seed) && forall i :: 0 <= i < |lines| ==> |lines[i]| < limit
    ensures LineAligned(Log(seed, lines, limit), History(seed, lines)) && EndsLine(Log(seed, lines, limit))
    ensures lines != [] ==>
              var log, newest := Log(seed, lines, limit), lines[|lines| - 1] + "\n";
              |log| <= limit && |newest| <= |log| && log[|log| - |newest|..] == newest
    decreases |lines|
  {
    if lines == [] {
      assert seed[|seed| - |seed|..] == seed;
    } else {
      hide LineAligned, EndsLine, Appended;
      var n := |lines| - 1;
      LogIsRecentHistory(seed, lines[..n], limit);
      RecentStep(Log(seed, lines[..n], limit), History(seed, lines[..n]), lines[n], limit);
    }
  }

  lemma RecentStep(log: string, whole: string, line: string, limit: nat)
    requires LineAligned(log, whole) && EndsLine(log) && |line| < limit
    ensures var next, newest := Appended(log, line, limit), line + "\n";
      && LineAligned(next, whole + line + "\n") && EndsLine(next)
      && |next| <= limit && |newest| <= |next| && next[|next| - |newest|..] == newest
  {
    hide LineAligned, KeepFrom, EndsLine;
    AppendedFits(log, line, limit);
    var keep := SatDrop(limit, |line| + 1);
    KeptIsLongest(log, keep, log);
    var kept := log[KeepFrom(log, keep)..];
    AlignedSuffixAppends(kept, log, whole, line + "\n");
    assert Appended(log, line, limit) == kept + (line + "\n");
    assert whole + line + "\n" == whole + (line + "\n");
  }

  /** A line that does not fit is cut at its front: exactly then it is not there whole. */
  lemma LongLineCut(existing: string, line: string, limit: nat)
    requires limit >= 1 && |line| >= limit
    ensures Appended(existing, line, limit) == line[|line| - (limit - 1)..] + "\n"
  {
    assert |Fitted(line, limit)| + 1 == limit;
    assert SatDrop(limit, limit) == 0;
    assert existing[KeepFrom(existing, 0)..] == [] by {
      assert existing[|existing|..] == [];
    }
  }
}
