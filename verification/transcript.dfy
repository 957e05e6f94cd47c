/** The chat messages of an agent transcript, and the two newest-to-oldest
    scans `format_messages` runs over it: the code-context scan and the
    choice of the last step. */
module Transcript {
  import opened Results
  import opened Text
  import opened OrderedMap

  /** The message classes `format_messages` tells apart: only
      `SystemMessage` matters to the scans. */
  datatype Role = System | Human | AI

  /** A chat message; `code`, `filePath` and `metadata` are the entries of
      its `additional_kwargs` under the keys `code`, `file_path` and
      `metadata`, when present. */
  datatype Message = Message(
    role: Role,
    content: string,
    code: Option<string>,
    filePath: Option<string>,
    metadata: Option<string>)

  function SystemMessage(content: string): Message {
    Message(System, content, None, None, None)
  }

  function HumanMessage(content: string): Message {
    Message(Human, content, None, None, None)
  }

  /** A message that feeds the code context: a system message with both a
      `code` and a `file_path` entry, whose code is not blank (not only
      whitespace: see `Text.StripNonEmptyIffHasText`). */
  predicate Contributes(m: Message) {
    m.role == System && m.code.Some? && m.filePath.Some? && HasText(m.code.value)
  }

  /** `Contributes` is the test of the scan: a system message with both
      entries whose code is non-empty once stripped. */
  lemma ContributesIffScanTest(m: Message)
    ensures Contributes(m) <==> m.role == System && m.code.Some? && m.filePath.Some? && |Strip(m.code.value)| > 0
  {
    if m.code.Some? {
      StripNonEmptyIffHasText(m.code.value);
    }
  }

  predicate ContributesTo(m: Message, p: string) {
    Contributes(m) && m.filePath.value == p
  }

  /** The index of the newest message in `msgs[lo..]` that contributes code
      for path `p`, or -1 if there is none. */
  function NewestFrom(msgs: seq<Message>, lo: nat, p: string): (r: int)
    requires lo <= |msgs|
    ensures r == -1 || (lo <= r < |msgs| && ContributesTo(msgs[r], p))
    decreases |msgs| - lo
  {
    if lo == |msgs| then -1
    else
      var n := NewestFrom(msgs, lo + 1, p);
      if n >= 0 then n else if ContributesTo(msgs[lo], p) then lo else -1
  }

  /** The index of the oldest message in `msgs[lo..]` that contributes code
      for path `p`, or -1 if there is none. */
  function OldestFrom(msgs: seq<Message>, lo: nat, p: string): (r: int)
    requires lo <= |msgs|
    ensures r == -1 || (lo <= r < |msgs| && ContributesTo(msgs[r], p))
    decreases |msgs| - lo
  {
    if lo == |msgs| then -1
    else if ContributesTo(msgs[lo], p) then lo
    else OldestFrom(msgs, lo + 1, p)
  }

  /** No message after the newest contributing one contributes to `p`. */
  lemma {:induction false} NewestIsLatest(msgs: seq<Message>, lo: nat, p: string, j: nat)
    requires lo <= j < |msgs| && ContributesTo(msgs[j], p)
    ensures lo <= j <= NewestFrom(msgs, lo, p)
    decreases |msgs| - lo
  {
    if lo < j {
      NewestIsLatest(msgs, lo + 1, p, j);
    }
  }

  /** No message before the oldest contributing one contributes to `p`. */
  lemma {:induction false} OldestIsEarliest(msgs: seq<Message>, lo: nat, p: string, j: nat)
    requires lo <= j < |msgs| && ContributesTo(msgs[j], p)
    ensures lo <= OldestFrom(msgs, lo, p) <= j
    decreases |msgs| - lo
  {
    if lo < j && !ContributesTo(msgs[lo], p) {
      OldestIsEarliest(msgs, lo + 1, p, j);
    }
  }

  /** Every contributing message of `msgs[lo..]` has its path in `ctx`. */
  ghost predicate CoversWindow(ctx: seq<Entry>, msgs: seq<Message>, lo: nat)
    requires lo <= |msgs|
  {
    forall j :: lo <= j < |msgs| && Contributes(msgs[j]) ==> msgs[j].filePath.value in Paths(ctx)
  }

  /** Every entry of `ctx` holds the code of the oldest message of
      `msgs[lo..]` that contributes to its path (so there is one). */
  ghost predicate HoldsOldestCode(ctx: seq<Entry>, msgs: seq<Message>, lo: nat)
    requires lo <= |msgs|
  {
    forall i :: 0 <= i < |ctx| ==>
      var o := OldestFrom(msgs, lo, ctx[i].path);
      o >= 0 && ctx[i].code == msgs[o].code.value
  }

  /** The entries of `ctx` are ordered by the newest message of `msgs[lo..]`
      that contributes to their path, newest first. */
  ghost predicate NewestFirst(ctx: seq<Entry>, msgs: seq<Message>, lo: nat)
    requires lo <= |msgs|
  {
    forall a, b :: 0 <= a < b < |ctx| ==>
      NewestFrom(msgs, lo, ctx[a].path) > NewestFrom(msgs, lo, ctx[b].path)
  }

  /** `ctx` is what the reverse scan has built once it has visited
      `msgs[lo..]`: exactly the paths that some contributing message there
      names, each holding the code of the OLDEST such message, ordered by
      their NEWEST such message, newest first. */
  ghost predicate ContextOfWindow(ctx: seq<Entry>, msgs: seq<Message>, lo: nat)
    requires lo <= |msgs|
  {
    DistinctPaths(ctx) && CoversWindow(ctx, msgs, lo)
    && HoldsOldestCode(ctx, msgs, lo) && NewestFirst(ctx, msgs, lo)
  }

  /** The code context of a whole transcript. */
  ghost predicate IsCodeContextOf(ctx: seq<Entry>, msgs: seq<Message>) {
    ContextOfWindow(ctx, msgs, 0)
  }

  /** The first loop of `format_messages`: visits the transcript from the
      newest message to the oldest and assigns `code_context[file_path] =
      code` for every contributing message. */
  method ExtractCodeContext(messages: seq<Message>) returns (ctx: seq<Entry>)
    ensures IsCodeContextOf(ctx, messages)
  {
    ctx := [];
    var i := |messages|;
    while i > 0
      invariant 0 <= i <= |messages|
      invariant ContextOfWindow(ctx, messages, i)
    {
      i := i - 1;
      var m := messages[i];
      ContributesIffScanTest(m);
      if m.role == System && m.code.Some? && m.filePath.Some? && |Strip(m.code.value)| > 0 {
        ScanStep(ctx, messages, i);
        ctx := Put(ctx, m.filePath.value, m.code.value);
      } else {
        SkipStep(ctx, messages, i);
      }
    }
  }

  /** One step back in the transcript, seen from one path. */
  lemma WindowStep(msgs: seq<Message>, i: nat, q: string)
    requires i < |msgs|
    ensures NewestFrom(msgs, i, q) ==
      if ContributesTo(msgs[i], q) && NewestFrom(msgs, i + 1, q) < 0 then i else NewestFrom(msgs, i + 1, q)
    ensures OldestFrom(msgs, i, q) ==
      if ContributesTo(msgs[i], q) then i else OldestFrom(msgs, i + 1, q)
  {
  }

  /** A path has a newest contributing message exactly when it has an
      oldest one. */
  lemma NewestIffOldest(msgs: seq<Message>, lo: nat, q: string)
    requires lo <= |msgs|
    ensures NewestFrom(msgs, lo, q) >= 0 <==> OldestFrom(msgs, lo, q) >= 0
  {
    var n, o := NewestFrom(msgs, lo, q), OldestFrom(msgs, lo, q);
    if n >= 0 { OldestIsEarliest(msgs, lo, q, n); }
    if o >= 0 { NewestIsLatest(msgs, lo, q, o); }
  }

  /** A message that does not contribute changes nothing. */
  lemma SkipStep(ctx: seq<Entry>, msgs: seq<Message>, i: nat)
    requires i < |msgs| && !Contributes(msgs[i])
    requires ContextOfWindow(ctx, msgs, i + 1)
    ensures ContextOfWindow(ctx, msgs, i)
  {
    forall a | 0 <= a < |ctx| ensures
      NewestFrom(msgs, i, ctx[a].path) == NewestFrom(msgs, i + 1, ctx[a].path) &&
      OldestFrom(msgs, i, ctx[a].path) == OldestFrom(msgs, i + 1, ctx[a].path)
    {
      WindowStep(msgs, i, ctx[a].path);
    }
  }

  /** Visiting one older contributing message keeps the window invariant. */
  lemma ScanStep(ctx: seq<Entry>, msgs: seq<Message>, i: nat)
    requires i < |msgs| && Contributes(msgs[i])
    requires ContextOfWindow(ctx, msgs, i + 1)
    ensures ContextOfWindow(Put(ctx, msgs[i].filePath.value, msgs[i].code.value), msgs, i)
  {
    var p := msgs[i].filePath.value;
    var r := Put(ctx, p, msgs[i].code.value);
    assert CoversWindow(r, msgs, i) by {
      forall j | i <= j < |msgs| && Contributes(msgs[j]) ensures msgs[j].filePath.value in Paths(r) {
      }
    }
    if p in Paths(ctx) {
      StepKnownPath(ctx, msgs, i);
    } else {
      StepNewPath(ctx, msgs, i);
    }
  }

  /** A path already in the map takes the older code and keeps its place. */
  lemma StepKnownPath(ctx: seq<Entry>, msgs: seq<Message>, i: nat)
    requires i < |msgs| && Contributes(msgs[i]) && msgs[i].filePath.value in Paths(ctx)
    requires DistinctPaths(ctx) && HoldsOldestCode(ctx, msgs, i + 1) && NewestFirst(ctx, msgs, i + 1)
    ensures var r := Put(ctx, msgs[i].filePath.value, msgs[i].code.value);
      HoldsOldestCode(r, msgs, i) && NewestFirst(r, msgs, i)
  {
    var r := Put(ctx, msgs[i].filePath.value, msgs[i].code.value);
    KnownPathOldest(ctx, r, msgs, i);
    KnownPathNewest(ctx, r, msgs, i);
  }

  lemma KnownPathOldest(ctx: seq<Entry>, r: seq<Entry>, msgs: seq<Message>, i: nat)
    requires i < |msgs| && Contributes(msgs[i]) && HoldsOldestCode(ctx, msgs, i + 1)
    requires |r| == |ctx|
    requires forall a :: 0 <= a < |ctx| ==>
      (r[a].path == ctx[a].path &&
       r[a].code == if ctx[a].path == msgs[i].filePath.value then msgs[i].code.value else ctx[a].code)
    ensures HoldsOldestCode(r, msgs, i)
  {
    forall a | 0 <= a < |r|
      ensures var o := OldestFrom(msgs, i, r[a].path); o >= 0 && r[a].code == msgs[o].code.value
    {
      KnownPathAt(msgs, i, ctx[a].path);
    }
  }

  lemma KnownPathNewest(ctx: seq<Entry>, r: seq<Entry>, msgs: seq<Message>, i: nat)
    requires i < |msgs| && HoldsOldestCode(ctx, msgs, i + 1) && NewestFirst(ctx, msgs, i + 1)
    requires |r| == |ctx| && forall a :: 0 <= a < |ctx| ==> r[a].path == ctx[a].path
    ensures NewestFirst(r, msgs, i)
  {
    forall a | 0 <= a < |r|
      ensures NewestFrom(msgs, i, r[a].path) == NewestFrom(msgs, i + 1, ctx[a].path)
    {
      KnownPathAt(msgs, i, ctx[a].path);
    }
  }

  /** A path not yet in the map goes at the end: its newest message is the
      oldest one visited so far. */
  lemma StepNewPath(ctx: seq<Entry>, msgs: seq<Message>, i: nat)
    requires i < |msgs| && Contributes(msgs[i]) && msgs[i].filePath.value !in Paths(ctx)
    requires DistinctPaths(ctx) && HoldsOldestCode(ctx, msgs, i + 1) && NewestFirst(ctx, msgs, i + 1)
    requires CoversWindow(ctx, msgs, i + 1)
    ensures var r := ctx + [Entry(msgs[i].filePath.value, msgs[i].code.value)];
      HoldsOldestCode(r, msgs, i) && NewestFirst(r, msgs, i)
  {
    var p := msgs[i].filePath.value;
    var n := NewestFrom(msgs, i + 1, p);
    assert n == -1;
    WindowStep(msgs, i, p);
    NewPathOldest(ctx, msgs, i);
    NewPathNewest(ctx, msgs, i);
  }

  lemma NewPathOldest(ctx: seq<Entry>, msgs: seq<Message>, i: nat)
    requires i < |msgs| && Contributes(msgs[i]) && HoldsOldestCode(ctx, msgs, i + 1)
    requires OldestFrom(msgs, i, msgs[i].filePath.value) == i
    requires msgs[i].filePath.value !in Paths(ctx)
    ensures HoldsOldestCode(ctx + [Entry(msgs[i].filePath.value, msgs[i].code.value)], msgs, i)
  {
    forall a | 0 <= a < |ctx|
      ensures var o := OldestFrom(msgs, i, ctx[a].path); o >= 0 && ctx[a].code == msgs[o].code.value
    {
      KnownPathAt(msgs, i, ctx[a].path);
    }
  }

  lemma NewPathNewest(ctx: seq<Entry>, msgs: seq<Message>, i: nat)
    requires i < |msgs| && Contributes(msgs[i])
    requires HoldsOldestCode(ctx, msgs, i + 1) && NewestFirst(ctx, msgs, i + 1)
    requires NewestFrom(msgs, i, msgs[i].filePath.value) == i
    ensures NewestFirst(ctx + [Entry(msgs[i].filePath.value, msgs[i].code.value)], msgs, i)
  {
    var r := ctx + [Entry(msgs[i].filePath.value, msgs[i].code.value)];
    forall a | 0 <= a < |ctx|
      ensures NewestFrom(msgs, i, r[a].path) == NewestFrom(msgs, i + 1, ctx[a].path) > i
    {
      assert r[a] == ctx[a];
      KnownPathAt(msgs, i, ctx[a].path);
    }
  }

  /** Seen from a path the visited window already names, one more step
      back leaves its newest message alone and may only move its oldest. */
  lemma KnownPathAt(msgs: seq<Message>, i: nat, q: string)
    requires i < |msgs| && OldestFrom(msgs, i + 1, q) >= 0
    ensures NewestFrom(msgs, i, q) == NewestFrom(msgs, i + 1, q) > i
    ensures OldestFrom(msgs, i, q) == if ContributesTo(msgs[i], q) then i else OldestFrom(msgs, i + 1, q)
  {
    WindowStep(msgs, i, q);
    NewestIffOldest(msgs, i + 1, q);
  }

  /** The transcript determines its code context: two maps that both meet
      the characterization are the same sequence of entries. */
  lemma CodeContextUnique(c1: seq<Entry>, c2: seq<Entry>, msgs: seq<Message>)
    requires IsCodeContextOf(c1, msgs) && IsCodeContextOf(c2, msgs)
    ensures c1 == c2
  {
    assert Paths(c1) <= Paths(c2) by { SamePaths(c1, c2, msgs); }
    assert Paths(c2) <= Paths(c1) by { SamePaths(c2, c1, msgs); }
    var newest := p => NewestFrom(msgs, 0, p);
    assert RankedBy(c1, newest) && RankedBy(c2, newest);
    RankedPathsEqual(c1, c2, newest);
    forall i | 0 <= i < |c1| ensures c1[i] == c2[i] {
      assert c1[i].code == msgs[OldestFrom(msgs, 0, c1[i].path)].code.value;
      assert c2[i].code == msgs[OldestFrom(msgs, 0, c2[i].path)].code.value;
    }
  }

  lemma SamePaths(c1: seq<Entry>, c2: seq<Entry>, msgs: seq<Message>)
    requires HoldsOldestCode(c1, msgs, 0) && CoversWindow(c2, msgs, 0)
    ensures Paths(c1) <= Paths(c2)
  {
    forall x | x in Paths(c1) ensures x in Paths(c2) {
      var i :| 0 <= i < |c1| && c1[i].path == x;
      var o := OldestFrom(msgs, 0, x);
      assert msgs[o].filePath.value == x;
    }
  }

  /** The entries of `c` are in strictly decreasing order of `rank`. */
  ghost predicate RankedBy(c: seq<Entry>, rank: string -> int) {
    forall a, b :: 0 <= a < b < |c| ==> rank(c[a].path) > rank(c[b].path)
  }

  /** Two maps with the same paths, both in strictly decreasing order of
      one rank, list those paths in the same order. */
  lemma {:induction false} RankedPathsEqual(c1: seq<Entry>, c2: seq<Entry>, rank: string -> int)
    requires RankedBy(c1, rank) && RankedBy(c2, rank) && Paths(c1) == Paths(c2)
    ensures |c1| == |c2| && forall i :: 0 <= i < |c1| ==> c1[i].path == c2[i].path
  {
    if c1 != [] {
      assert c1[0].path in Paths(c1);
    }
    if c2 != [] {
      assert c2[0].path in Paths(c2);
    }
    if c1 != [] && c2 != [] {
      var x, y := c1[0].path, c2[0].path;
      var j :| 0 <= j < |c2| && c2[j].path == x;
      var i :| 0 <= i < |c1| && c1[i].path == y;
      assert j == 0 || rank(y) > rank(x);
      assert i == 0 || rank(x) > rank(y);
      TailPaths(c1, rank);
      TailPaths(c2, rank);
      assert Paths(c1[1..]) == Paths(c2[1..]);
      RankedPathsEqual(c1[1..], c2[1..], rank);
      forall k | 0 <= k < |c1| ensures c1[k].path == c2[k].path {
        if k > 0 {
          assert c1[1..][k - 1] == c1[k] && c2[1..][k - 1] == c2[k];
        }
      }
    }
  }

  lemma TailPaths(c: seq<Entry>, rank: string -> int)
    requires c != [] && RankedBy(c, rank)
    ensures RankedBy(c[1..], rank) && Paths(c[1..]) == Paths(c) - {c[0].path}
  {
    forall x | x in Paths(c) - {c[0].path} ensures x in Paths(c[1..]) {
      var i :| 0 <= i < |c| && c[i].path == x;
      assert c[1..][i - 1].path == x;
    }
    forall x | x in Paths(c[1..]) ensures x in Paths(c) - {c[0].path} {
      var i :| 0 <= i < |c| - 1 && c[1..][i].path == x;
      assert c[i + 1].path == x;
      assert rank(c[0].path) > rank(c[i + 1].path);
    }
  }

  /** A transcript without code messages yields an empty code context
      (rendered as "None"). */
  lemma NoCodeNoContext(ctx: seq<Entry>, msgs: seq<Message>)
    requires forall j :: 0 <= j < |msgs| ==> !Contributes(msgs[j])
    requires IsCodeContextOf(ctx, msgs)
    ensures ctx == []
  {
    assert ctx != [] ==> OldestFrom(msgs, 0, ctx[0].path) >= 0;
  }

  /** A file written twice: the scan meets the newer write first and then
      overwrites it with the older one, so the context holds the OLDER code. */
  lemma RewrittenFileKeepsOlderCode(m1: Message, m2: Message, p: string, ctx: seq<Entry>)
    requires ContributesTo(m1, p) && ContributesTo(m2, p)
    requires IsCodeContextOf(ctx, [m1, m2])
    ensures ctx == [Entry(p, m1.code.value)]
  {
    var msgs, expected := [m1, m2], [Entry(p, m1.code.value)];
    assert OldestFrom(msgs, 0, p) == 0;
    assert expected[0].path == p && p in Paths(expected);
    assert DistinctPaths(expected);
    assert CoversWindow(expected, msgs, 0);
    assert HoldsOldestCode(expected, msgs, 0);
    assert NewestFirst(expected, msgs, 0);
    CodeContextUnique(ctx, expected, msgs);
  }

  /** Two files written one after the other: the file written last comes
      first in the context, so it is the first one the budget loop evicts. */
  lemma LastWrittenFileComesFirst(m1: Message, m2: Message, p: string, q: string, ctx: seq<Entry>)
    requires ContributesTo(m1, p) && ContributesTo(m2, q) && p != q
    requires IsCodeContextOf(ctx, [m1, m2])
    ensures ctx == [Entry(q, m2.code.value), Entry(p, m1.code.value)]
  {
    var msgs, expected := [m1, m2], [Entry(q, m2.code.value), Entry(p, m1.code.value)];
    assert OldestFrom(msgs, 0, p) == 0 && OldestFrom(msgs, 0, q) == 1;
    assert NewestFrom(msgs, 0, p) == 0 && NewestFrom(msgs, 0, q) == 1;
    assert expected[0].path == q && expected[1].path == p;
    assert p in Paths(expected) && q in Paths(expected);
    assert DistinctPaths(expected);
    assert CoversWindow(expected, msgs, 0);
    assert HoldsOldestCode(expected, msgs, 0);
    assert NewestFirst(expected, msgs, 0);
    CodeContextUnique(ctx, expected, msgs);
  }

  /** A message that records a completed step: a system message whose
      `metadata` entry is present and non-empty (truthy). */
  predicate IsStep(m: Message) {
    m.role == System && m.metadata.Some? && m.metadata.value != ""
  }

  /** No message after index `k` records a step. */
  predicate NoStepAfter(msgs: seq<Message>, k: int) {
    forall j :: 0 <= j < |msgs| && k < j ==> !IsStep(msgs[j])
  }

  /** The index of the newest step message, or -1 if there is none. */
  function LastStepIndex(msgs: seq<Message>): (r: int)
    ensures -1 <= r < |msgs|
    ensures r >= 0 ==> IsStep(msgs[r])
    ensures NoStepAfter(msgs, r)
  {
    if msgs == [] then -1
    else if IsStep(msgs[|msgs| - 1]) then |msgs| - 1
    else LastStepIndex(msgs[..|msgs| - 1])
  }

  /** The `last_step` of `format_messages`: the metadata of the newest step
      message, or the literal "None" when the transcript has none. */
  function LastStep(msgs: seq<Message>): (r: string)
    ensures (forall j :: 0 <= j < |msgs| ==> !IsStep(msgs[j])) ==> r == "None"
    ensures forall k :: 0 <= k < |msgs| && IsStep(msgs[k]) && NoStepAfter(msgs, k) ==>
      r == msgs[k].metadata.value
  {
    var k := LastStepIndex(msgs);
    if k >= 0 then msgs[k].metadata.value else "None"
  }
}
