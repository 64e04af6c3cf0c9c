/** The encoder and decoder as they run: text built by appending, tables filled
    line by line, cursors completed in place. */
module UsageStateCodec {
  import opened Wrappers
  import opened SeqFacts
  import opened Sorting
  import opened Text
  import opened UsageTypes
  import opened UsageStateModel
  import opened UsageLines
  import opened UsageLineSyntax
  import opened UsageCodec
  import L = UsageCollectLaws

  lemma {:induction false} PrintAllAppend(a: seq<Line>, b: seq<Line>)
    requires Printable(a) && Printable(b)
    ensures Printable(a + b) && PrintAll(a + b) == PrintAll(a) + PrintAll(b)
    decreases |a|
  {
    hide Print;
    if a == [] {
      assert a + b == b;
    } else {
      assert (a + b)[1..] == a[1..] + b;
      PrintAllAppend(a[1..], b);
    }
  }

  /** The text of lines, appended at the end. */
  lemma TextAppend(before: seq<Line>, more: seq<Line>)
    requires Printable(before) && Printable(more)
    ensures Printable(before + more)
    ensures Unlines(PrintAll(before + more)) == Unlines(PrintAll(before)) + Unlines(PrintAll(more))
  {
    PrintAllAppend(before, more);
    UnlinesAppend(PrintAll(before), PrintAll(more));
  }

  lemma {:induction false} AllCursorLinesSnoc(cs: seq<UsageCursor>, c: UsageCursor)
    ensures AllCursorLines(cs + [c]) == AllCursorLines(cs) + CursorLines(c)
    decreases |cs|
  {
    hide CursorLines;
    if cs == [] {
      assert (cs + [c])[1..] == [];
      assert CursorLines(c) + [] == CursorLines(c) == [] + CursorLines(c);
    } else {
      assert (cs + [c])[1..] == cs[1..] + [c];
      AllCursorLinesSnoc(cs[1..], c);
    }
  }

  /** Appends the lines one after the other. */
  method PushLines(text: string, lines: seq<Line>) returns (out: string)
    requires Printable(lines)
    ensures out == text + Unlines(PrintAll(lines))
  {
    hide Print;
    out := text;
    var i := 0;
    assert Printable(lines[..0]) && PrintAll(lines[..0]) == [];
    while i < |lines|
      invariant 0 <= i <= |lines|
      invariant Printable(lines[..i]) && out == text + Unlines(PrintAll(lines[..i]))
    {
      var one := [lines[i]];
      assert lines[..i + 1] == lines[..i] + one;
      TextAppend(lines[..i], one);
      assert one[1..] == [];
      assert PrintAll(one) == [Print(lines[i])];
      assert [Print(lines[i])][1..] == [];
      assert Unlines([Print(lines[i])]) == Print(lines[i]) + ['\n'] + [];
      out := out + Print(lines[i]) + ['\n'];
      i := i + 1;
    }
    assert lines[..i] == lines;
  }

  /** `UsageState::encode`. */
  method EncodeState(s: UsageState) returns (out: string)
    ensures out == Encode(s)
  {
    hide CursorLines, NumberLines, AllCursorLines, Print;
    StateLinesPrintable(s);
    NumberLinesPrintable(s, NUMBER_KEYS);
    var cursors := SortedCursors(s);
    ghost var numbers := NumberLines(s, NUMBER_KEYS);
    out := PushLines(USAGE_STATE_HEADER + ['\n'], NumberLines(s, NUMBER_KEYS));
    var i := 0;
    NoCursorLines(numbers);
    assert cursors[..0] == [];
    while i < |cursors|
      invariant 0 <= i <= |cursors|
      invariant Printable(numbers + AllCursorLines(cursors[..i]))
      invariant out == USAGE_STATE_HEADER + ['\n'] + Unlines(PrintAll(numbers + AllCursorLines(cursors[..i])))
    {
      var c := cursors[i];
      CursorLinesPrintable(c);
      TextAppend(numbers + AllCursorLines(cursors[..i]), CursorLines(c));
      AllCursorLinesSnoc(cursors[..i], c);
      assert cursors[..i + 1] == cursors[..i] + [c];
      assert numbers + AllCursorLines(cursors[..i]) + CursorLines(c)
          == numbers + (AllCursorLines(cursors[..i]) + CursorLines(c));
      out := PushLines(out, CursorLines(c));
      i := i + 1;
    }
    assert cursors[..i] == cursors;
    HeaderFirst(PrintAll(StateLines(s)));
  }

  lemma NoCursorLines(numbers: seq<Line>)
    ensures numbers + AllCursorLines([]) == numbers
  {
  }

  lemma HeaderFirst(rest: seq<string>)
    ensures Unlines([USAGE_STATE_HEADER] + rest) == USAGE_STATE_HEADER + ['\n'] + Unlines(rest)
  {
    assert ([USAGE_STATE_HEADER] + rest)[1..] == rest;
  }

  /** `UsageState::decode`. */
  method DecodeState(payload: string) returns (state: Option<UsageState>)
    ensures state == Decode(payload)
  {
    hide CollectText, Finish, JoinCursors, Lines, Sort;
    var lines := Lines(payload);
    if |lines| == 0 || lines[0] != USAGE_STATE_HEADER {
      return None;
    }
    var tables := NO_TABLES;
    var i := 1;
    while i < |lines|
      invariant 1 <= i <= |lines|
      invariant CollectAll(tables, lines[i..]) == CollectAll(NO_TABLES, lines[1..])
    {
      var next := CollectText(tables, lines[i]);
      assert lines[i..][1..] == lines[i + 1..];
      if next.None? {
        return None;
      }
      tables := next.value;
      i := i + 1;
    }
    CollectedInRange(NO_TABLES, lines[1..]);
    var cursors := CompleteCursors(tables);
    if cursors.None? {
      return None;
    }
    state := Finish(tables.numbers, cursors.value);
  }

  function Prepend(done: seq<UsageCursor>, rest: Option<seq<UsageCursor>>): Option<seq<UsageCursor>> {
    if rest.None? then None else Some(done + rest.value)
  }

  /** Joins the side tables onto the cursors. */
  method CompleteCursors(t: Tables) returns (cursors: Option<seq<UsageCursor>>)
    ensures cursors == JoinCursors(t)
  {
    hide Position, Sort;
    var dated := TakeMonths(t.cursors, t.activeMonths);
    if dated.None? {
      return None;
    }
    var cs := dated.value;
    ghost var cs0 := cs;
    var i := 0;
    assert t.prefixes[0..] == t.prefixes;
    while i < |t.prefixes|
      invariant 0 <= i <= |t.prefixes|
      invariant JoinPrefixes(cs, t.prefixes[i..]) == JoinPrefixes(cs0, t.prefixes)
    {
      var n := Position(cs, t.prefixes[i].0);
      assert t.prefixes[i..][1..] == t.prefixes[i + 1..];
      if n < |cs| {
        cs := cs[n := cs[n].(prefix := Some(t.prefixes[i].1))];
      }
      i := i + 1;
    }
    ghost var cs1 := cs;
    i := 0;
    assert t.fileIds[0..] == t.fileIds;
    while i < |t.fileIds|
      invariant 0 <= i <= |t.fileIds|
      invariant JoinFileIds(cs, t.fileIds[i..]) == JoinFileIds(cs1, t.fileIds)
    {
      var n := Position(cs, t.fileIds[i].0);
      assert t.fileIds[i..][1..] == t.fileIds[i + 1..];
      if n == |cs| || cs[n].fileId.Some? {
        return None;
      }
      cs := cs[n := cs[n].(fileId := Some(t.fileIds[i].1))];
      i := i + 1;
    }
    ghost var cs2 := cs;
    i := 0;
    assert t.models[0..] == t.models;
    while i < |t.models|
      invariant 0 <= i <= |t.models|
      invariant JoinModels(cs, t.models[i..]) == JoinModels(cs2, t.models)
    {
      var n := Position(cs, t.models[i].0);
      assert t.models[i..][1..] == t.models[i + 1..];
      if n < |cs| {
        cs := cs[n := cs[n].(lastModel := Some(t.models[i].1))];
      }
      i := i + 1;
    }
    cursors := TakeLists(cs, t);
  }

  /** Each cursor removes its own month; one left over is an error. */
  method TakeMonths(cs: seq<UsageCursor>, months: map<Identity, u32>) returns (out: Option<seq<UsageCursor>>)
    ensures out == JoinMonths(cs, months)
  {
    var left := months;
    var done: seq<UsageCursor> := [];
    var i := 0;
    ghost var all := JoinMonths(cs, months);
    assert cs[0..] == cs;
    assert all.Some? ==> [] + all.value == all.value;
    while i < |cs|
      invariant 0 <= i <= |cs|
      invariant all == Prepend(done, JoinMonths(cs[i..], left))
    {
      var c := cs[i];
      var month := if c.id in left then Some(left[c.id]) else None;
      left := left - {c.id};
      assert cs[i..][1..] == cs[i + 1..];
      ghost var rest := JoinMonths(cs[i + 1..], left);
      var dated := c.(activeMonth := month);
      assert rest.Some? ==> done + ([dated] + rest.value) == (done + [dated]) + rest.value;
      done := done + [dated];
      i := i + 1;
    }
    assert done + [] == done;
    out := if left == map[] then Some(done) else None;
  }

  /** Each cursor removes its own lists, which must be consistent; one left over is an error. */
  method TakeLists(cs: seq<UsageCursor>, t: Tables) returns (out: Option<seq<UsageCursor>>)
    ensures out == JoinLists(cs, t.seen, t.pending, t.contribs)
  {
    hide PendingConsistent, Sort;
    var seen, pending, contribs := t.seen, t.pending, t.contribs;
    var done: seq<UsageCursor> := [];
    var i := 0;
    ghost var all := JoinLists(cs, seen, pending, contribs);
    assert cs[0..] == cs;
    assert all.Some? ==> [] + all.value == all.value;
    while i < |cs|
      invariant 0 <= i <= |cs|
      invariant all == Prepend(done, JoinLists(cs[i..], seen, pending, contribs))
    {
      var id := cs[i].id;
      var keys, events, days := ListOf(seen, id), ListOf(pending, id), ListOf(contribs, id);
      if (id.kind == Codex && events != []) || !PendingConsistent(keys, events) {
        return None;
      }
      seen, pending, contribs := seen - {id}, pending - {id}, contribs - {id};
      var joined := cs[i].(seenKeys := keys, claudePending := events, contribDays := Sort(DayOrder(), days));
      assert cs[i..][1..] == cs[i + 1..];
      ghost var rest := JoinLists(cs[i + 1..], seen, pending, contribs);
      assert rest.Some? ==> done + ([joined] + rest.value) == (done + [joined]) + rest.value;
      done := done + [joined];
      i := i + 1;
    }
    assert done + [] == done;
    out := if seen == map[] && pending == map[] && contribs == map[] then Some(done) else None;
  }
}
