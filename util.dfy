/**
 * Model of src/util.rs: the UTF-8 floor boundary, the tool-intent detector and
 * the completion-phrase detector. Strings are their UTF-8 bytes; lowering is ASCII lowering.
 */
module Util {
  import opened Wrappers
  import opened ByteStrings

  // ---------------------------------------------------------------------------
  // floor_char_boundary

  /** `i` is what `floor_char_boundary(s, pos)` promises: the length of `s` when `pos` is at
      or past the end, and otherwise the largest character boundary not after `pos`. */
  predicate IsFloorBoundary(s: Bytes, pos: nat, i: nat) {
    && (pos >= |s| ==> i == |s|)
    && (pos < |s| ==>
          && i <= pos
          && IsCharBoundary(s, i)
          && forall j :: i < j <= pos ==> !IsCharBoundary(s, j))
  }

  /** The promise fixes the answer. */
  lemma FloorBoundaryUnique(s: Bytes, pos: nat, i: nat, k: nat)
    requires IsFloorBoundary(s, pos, i) && IsFloorBoundary(s, pos, k)
    ensures i == k
  {
  }

  /** The value `floor_char_boundary` computes, for use inside other functions. */
  function FloorBoundary(s: Bytes, pos: nat): (i: nat)
    decreases pos
    ensures IsFloorBoundary(s, pos, i)
  {
    if pos >= |s| then |s|
    else if IsCharBoundary(s, pos) then pos
    else FloorBoundary(s, pos - 1)
  }

  /** `floor_char_boundary`: step back from `pos` until a character boundary. */
  method FloorCharBoundary(s: Bytes, pos: nat) returns (i: nat)
    ensures IsFloorBoundary(s, pos, i)
    ensures i == FloorBoundary(s, pos)
  {
    if pos >= |s| {
      return |s|;
    }
    i := pos;
    while i > 0 && !IsCharBoundary(s, i)
      invariant i <= pos
      invariant forall j :: i < j <= pos ==> !IsCharBoundary(s, j)
    {
      i := i - 1;
    }
    FloorBoundaryUnique(s, pos, i, FloorBoundary(s, pos));
  }

  /** The cases the source's tests pin down. */
  lemma FloorBoundaryExamples(s: Bytes, n: nat)
    ensures FloorBoundary(Ascii("hello"), 3) == 3
    ensures FloorBoundary([0x68, 0xC3, 0xA9], 2) == 1   // "hé": byte 2 is inside 'é'
    ensures FloorBoundary(Ascii("hi"), 100) == 2
    ensures FloorBoundary(s, 0) == 0
    ensures FloorBoundary([], n) == 0
  {
  }

  /** The smallest character boundary at or after `pos` (the end of `s` when `pos` is past it).
      Used by the corrected truncations of the shell tool. */
  function CeilBoundary(s: Bytes, pos: nat): (i: nat)
    decreases |s| - pos
    ensures pos <= |s| ==> pos <= i <= |s| && IsCharBoundary(s, i)
    ensures pos <= |s| ==> forall j :: pos <= j < i ==> !IsCharBoundary(s, j)
    ensures pos > |s| ==> i == |s|
  {
    if pos >= |s| then |s|
    else if IsCharBoundary(s, pos) then pos
    else CeilBoundary(s, pos + 1)
  }

  // ---------------------------------------------------------------------------
  // llm_mentions_tool_intent

  const INTENT_PHRASES: seq<Bytes> := [
    Ascii("i'll use"), Ascii("i will use"), Ascii("i'll call"), Ascii("i will call"),
    Ascii("i'll run"), Ascii("i will run"), Ascii("i'll invoke"), Ascii("i will invoke"),
    Ascii("i'll execute"), Ascii("i will execute"), Ascii("let me use"), Ascii("let me call"),
    Ascii("let me run"), Ascii("let me invoke"), Ascii("let me execute"), Ascii("i need to use"),
    Ascii("i need to call"), Ascii("i need to run"), Ascii("i should use"), Ascii("i should call"),
    Ascii("i should run"), Ascii("i'm going to use"), Ascii("i'm going to call"),
    Ascii("i'm going to run"), Ascii("going to use the"), Ascii("going to call the"),
    Ascii("going to run the"), Ascii("i can use"), Ascii("i can call"), Ascii("i can run"),
    Ascii("using the"), Ascii("by calling"), Ascii("by running"), Ascii("by using")
  ]

  /** How many bytes after an intent phrase a tool name may appear in. */
  const TOOL_WINDOW: nat := 80

  const UNDERSCORE: byte := '_' as int
  const SPACE: byte := ' ' as int

  function Min(a: nat, b: nat): nat {
    if a <= b then a else b
  }

  /** The window as the source slices it, `&lower[start..min(start + 80, len)]`:
      None where that slice panics because an end falls inside a character. */
  function IntentWindowAsWritten(lower: Bytes, start: nat): (r: Option<Bytes>)
    requires start <= |lower|
    ensures r.Some? <==> IsCharBoundary(lower, start) && IsCharBoundary(lower, Min(start + TOOL_WINDOW, |lower|))
    ensures r.Some? ==> r.value == lower[start..Min(start + TOOL_WINDOW, |lower|)]
  {
    Slice(lower, start, Min(start + TOOL_WINDOW, |lower|))
  }

  /** Where the window ends once that end is moved back to a character boundary (never
      before the window's start), so that slicing never panics. */
  function WindowEnd(lower: Bytes, start: nat): (e: nat)
    requires start <= |lower|
    ensures start <= e <= Min(start + TOOL_WINDOW, |lower|)
    ensures IsCharBoundary(lower, start) ==> IsCharBoundary(lower, e)
    ensures IsCharBoundary(lower, start) ==>
              forall j :: e < j <= Min(start + TOOL_WINDOW, |lower|) ==> !IsCharBoundary(lower, j)
  {
    var f := FloorBoundary(lower, Min(start + TOOL_WINDOW, |lower|));
    if f < start then start else f
  }

  /** The window of at most 80 bytes searched for tool names. */
  function IntentWindow(lower: Bytes, start: nat): (w: Bytes)
    requires start <= |lower|
    ensures |w| <= TOOL_WINDOW && start + |w| <= |lower| && w == lower[start..start + |w|]
    ensures IsCharBoundary(lower, start) ==>
              && IsCharBoundary(lower, start + |w|)
              && forall j :: start + |w| < j <= Min(start + TOOL_WINDOW, |lower|) ==> !IsCharBoundary(lower, j)
  {
    lower[start..WindowEnd(lower, start)]
  }

  /** Wherever the source's slice does not panic, the corrected window is that slice. */
  lemma IntentWindowAgrees(lower: Bytes, start: nat)
    requires start <= |lower|
    ensures IntentWindowAsWritten(lower, start).Some? ==>
              IntentWindow(lower, start) == IntentWindowAsWritten(lower, start).value
  {
  }

  /** A window of at most 80 bytes can end inside a character, and then the source's slice panics. */
  lemma IntentWindowAsWrittenPanics()
    ensures var lower := Ascii("i'll use") + seq(79, _ => 'x' as int) + [0xC3, 0xA9];
            Find(lower, INTENT_PHRASES[0]) == Some(0) && IntentWindowAsWritten(lower, 8).None?
  {
    var lower := Ascii("i'll use") + seq(79, _ => 'x' as int) + [0xC3, 0xA9];
    assert OccursAt(lower, INTENT_PHRASES[0], 0);
    assert IsContinuation(lower[88]);
  }

  /** The window names `tool`, as written or with `_` read as a space (both lowered). */
  predicate ToolInWindow(window: Bytes, tool: Bytes)
    ensures ToolInWindow(window, tool) ==> |tool| <= |window|
    ensures (forall i :: 0 <= i < |tool| ==> tool[i] != UNDERSCORE) ==>
              (ToolInWindow(window, tool) <==> Contains(window, Lower(tool)))
  {
    var toolLower := Lower(tool);
    SpacedFormOfPlainName(tool);
    Contains(window, toolLower) || Contains(window, ReplaceByte(toolLower, UNDERSCORE, SPACE))
  }

  /** A name without `_` has no separate spaced form. */
  lemma SpacedFormOfPlainName(tool: Bytes)
    ensures (forall i :: 0 <= i < |tool| ==> tool[i] != UNDERSCORE) ==>
              ReplaceByte(Lower(tool), UNDERSCORE, SPACE) == Lower(tool)
  {
    if forall i :: 0 <= i < |tool| ==> tool[i] != UNDERSCORE {
      assert forall i :: 0 <= i < |tool| ==> Lower(tool)[i] != UNDERSCORE;
    }
  }

  /** The window after the first occurrence of `phrase` names `tool`. */
  predicate WindowHit(lower: Bytes, phrase: Bytes, tool: Bytes)
    ensures WindowHit(lower, phrase, tool) ==> Find(lower, phrase).Some? && |tool| <= TOOL_WINDOW
  {
    var found := Find(lower, phrase);
    found.Some? && ToolInWindow(IntentWindow(lower, found.value + |phrase|), tool)
  }

  /** A hit, unfolded at a known first occurrence. */
  lemma WindowHitAt(lower: Bytes, phrase: Bytes, tool: Bytes)
    ensures Find(lower, phrase).None? ==> !WindowHit(lower, phrase, tool)
    ensures Find(lower, phrase).Some? ==> (WindowHit(lower, phrase, tool) <==>
            ToolInWindow(IntentWindow(lower, Find(lower, phrase).value + |phrase|), tool))
  {
  }

  /** An occurrence inside a slice is an occurrence in the whole string, shifted by the
      slice's start, and it ends no later than the slice does. */
  lemma OccursInSlice(s: Bytes, a: nat, b: nat, p: Bytes, i: nat)
    requires a <= b <= |s| && OccursAt(s[a..b], p, i)
    ensures OccursAt(s, p, a + i) && a + i + |p| <= b
  {
    var w := s[a..b];
    var x := s[a + i..a + i + |p|];
    forall k | 0 <= k < |p| ensures x[k] == p[k] {
      assert p[k] == w[i..i + |p|][k] == w[i + k];
    }
    assert x == p;
  }

  /** An occurrence that starts after `start` and ends by the window's end is inside the window. */
  lemma OccursInWindow(lower: Bytes, start: nat, p: Bytes, q: nat)
    requires start <= q && OccursAt(lower, p, q) && q + |p| <= WindowEnd(lower, start)
    ensures Contains(IntentWindow(lower, start), p)
  {
    var w := IntentWindow(lower, start);
    assert w == lower[start..WindowEnd(lower, start)];
    assert w[q - start..q - start + |p|] == lower[q..q + |p|];
    assert OccursAt(w, p, q - start);
  }

  /** A tool name found in the window lies entirely within the 80 bytes after `start`. */
  lemma ToolInWindowOccurs(lower: Bytes, start: nat, tool: Bytes)
    requires start <= |lower| && ToolInWindow(IntentWindow(lower, start), tool)
    ensures exists q :: start <= q && q + |tool| <= start + TOOL_WINDOW &&
              (OccursAt(lower, Lower(tool), q) || OccursAt(lower, ReplaceByte(Lower(tool), UNDERSCORE, SPACE), q))
  {
    var e := WindowEnd(lower, start);
    var w := lower[start..e];
    var t := Lower(tool);
    var u := if Contains(w, t) then t else ReplaceByte(t, UNDERSCORE, SPACE);
    var i :| 0 <= i <= |w| && OccursAt(w, u, i);
    OccursInSlice(lower, start, e, u, i);
  }

  /** What a hit means in terms of the lowered text: the tool name (or its spaced form) lies
      entirely within the 80 bytes that follow the FIRST occurrence of the phrase. */
  lemma WindowHitWithin80(lower: Bytes, phrase: Bytes, tool: Bytes)
    requires WindowHit(lower, phrase, tool)
    ensures var f := Find(lower, phrase).value;
            var start := f + |phrase|;
            (forall j :: 0 <= j < f ==> !OccursAt(lower, phrase, j)) &&
            exists q :: start <= q && q + |tool| <= start + TOOL_WINDOW &&
              (OccursAt(lower, Lower(tool), q) || OccursAt(lower, ReplaceByte(Lower(tool), UNDERSCORE, SPACE), q))
  {
    var f := Find(lower, phrase).value;
    ToolInWindowOccurs(lower, f + |phrase|, tool);
  }

  /** The inner loop of `llm_mentions_tool_intent`: does any tool name occur in the window? */
  method AnyToolInWindow(window: Bytes, toolNames: seq<Bytes>) returns (hit: bool)
    ensures hit <==> exists t :: 0 <= t < |toolNames| && ToolInWindow(window, toolNames[t])
  {
    for t := 0 to |toolNames|
      invariant forall t' :: 0 <= t' < t ==> !ToolInWindow(window, toolNames[t'])
    {
      var toolLower := Lower(toolNames[t]);
      if Contains(window, toolLower) || Contains(window, ReplaceByte(toolLower, UNDERSCORE, SPACE)) {
        return true;
      }
    }
    return false;
  }

  /** One turn of the outer loop of `llm_mentions_tool_intent`: find the phrase's first
      occurrence and search the window after it. */
  method PhraseHit(lower: Bytes, phrase: Bytes, toolNames: seq<Bytes>) returns (hit: bool)
    ensures hit <==> exists t :: 0 <= t < |toolNames| && WindowHit(lower, phrase, toolNames[t])
  {
    var found := Find(lower, phrase);
    if found.None? {
      forall t | 0 <= t < |toolNames| ensures !WindowHit(lower, phrase, toolNames[t]) {
        WindowHitAt(lower, phrase, toolNames[t]);
      }
      return false;
    }
    var window := IntentWindow(lower, found.value + |phrase|);
    hit := AnyToolInWindow(window, toolNames);
    forall t | 0 <= t < |toolNames|
      ensures WindowHit(lower, phrase, toolNames[t]) == ToolInWindow(window, toolNames[t])
    {
      WindowHitAt(lower, phrase, toolNames[t]);
    }
  }

  /** The outer loop of `llm_mentions_tool_intent` over a list of phrases, stopping at the
      first phrase whose window names a tool. */
  method AnyPhraseHit(lower: Bytes, phrases: seq<Bytes>, toolNames: seq<Bytes>) returns (b: bool)
    ensures b <==> exists k, t :: 0 <= k < |phrases| && 0 <= t < |toolNames| && WindowHit(lower, phrases[k], toolNames[t])
  {
    for k := 0 to |phrases|
      invariant forall k', t :: 0 <= k' < k && 0 <= t < |toolNames| ==> !WindowHit(lower, phrases[k'], toolNames[t])
    {
      var hit := PhraseHit(lower, phrases[k], toolNames);
      if hit {
        return true;
      }
    }
    return false;
  }

  /** `llm_mentions_tool_intent`: no tools means no intent; otherwise, for each intent phrase
      in turn, find its first occurrence in the lowered response and look for any tool name
      in the window after it. */
  method MentionsToolIntent(response: Bytes, toolNames: seq<Bytes>) returns (b: bool)
    ensures b <==> exists k, t :: 0 <= k < |INTENT_PHRASES| && 0 <= t < |toolNames|
                                  && WindowHit(Lower(response), INTENT_PHRASES[k], toolNames[t])
    ensures toolNames == [] ==> !b
  {
    if |toolNames| == 0 {
      return false;
    }
    b := AnyPhraseHit(Lower(response), INTENT_PHRASES, toolNames);
  }

  // ---------------------------------------------------------------------------
  // llm_signals_completion

  const POSITIVE_PHRASES: seq<Bytes> := [
    Ascii("job is complete"), Ascii("job is done"), Ascii("job is finished"),
    Ascii("task is complete"), Ascii("task is done"), Ascii("task is finished"),
    Ascii("work is complete"), Ascii("work is done"), Ascii("work is finished"),
    Ascii("successfully completed"), Ascii("have completed the job"), Ascii("have completed the task"),
    Ascii("have finished the job"), Ascii("have finished the task"), Ascii("all steps are complete"),
    Ascii("all steps are done"), Ascii("i have completed"), Ascii("i've completed"),
    Ascii("all done"), Ascii("all tasks complete")
  ]

  const NEGATIVE_PHRASES: seq<Bytes> := [
    Ascii("not complete"), Ascii("not done"), Ascii("not finished"), Ascii("incomplete"),
    Ascii("unfinished"), Ascii("isn't done"), Ascii("isn't complete"), Ascii("isn't finished"),
    Ascii("not yet done"), Ascii("not yet complete"), Ascii("not yet finished")
  ]

  /** `llm_signals_completion`: a negative phrase vetoes, otherwise any positive phrase signals. */
  function SignalsCompletion(response: Bytes): (r: bool)
    ensures (exists k :: 0 <= k < |NEGATIVE_PHRASES| && Contains(Lower(response), NEGATIVE_PHRASES[k])) ==> !r
    ensures (forall k :: 0 <= k < |NEGATIVE_PHRASES| ==> !Contains(Lower(response), NEGATIVE_PHRASES[k])) ==>
              (r <==> exists k :: 0 <= k < |POSITIVE_PHRASES| && Contains(Lower(response), POSITIVE_PHRASES[k]))
  {
    var lower := Lower(response);
    if AnyContained(lower, NEGATIVE_PHRASES) then false
    else AnyContained(lower, POSITIVE_PHRASES)
  }
}
