/**
 * Cases from the tests of src/util.rs, stated about the model of `llm_signals_completion`
 * and `llm_mentions_tool_intent`. Each case is checked byte by byte at the offsets that
 * matter rather than by comparing whole lowered strings.
 */
module UtilExamples {
  import opened Wrappers
  import opened ByteStrings
  import opened Util

  /** Every negative phrase holds an `n`; `NEGATIVE_PROBE[k]` is where. */
  const NEGATIVE_PROBE: seq<nat> := [0, 0, 0, 1, 1, 2, 2, 2, 0, 0, 0]
  /** Every positive phrase holds a space; `POSITIVE_PROBE[k]` is where. */
  const POSITIVE_PROBE: seq<nat> := [3, 3, 3, 4, 4, 4, 4, 4, 4, 12, 4, 4, 4, 4, 3, 3, 1, 4, 3, 3]

  lemma NegativeProbesHit()
    ensures |NEGATIVE_PROBE| == |NEGATIVE_PHRASES|
    ensures forall k :: 0 <= k < |NEGATIVE_PHRASES| ==>
              NEGATIVE_PROBE[k] < |NEGATIVE_PHRASES[k]| && NEGATIVE_PHRASES[k][NEGATIVE_PROBE[k]] in {'n' as int}
  {
  }

  lemma PositiveProbesHit()
    ensures |POSITIVE_PROBE| == |POSITIVE_PHRASES|
    ensures forall k :: 0 <= k < |POSITIVE_PHRASES| ==>
              POSITIVE_PROBE[k] < |POSITIVE_PHRASES[k]| && POSITIVE_PHRASES[k][POSITIVE_PROBE[k]] in {' ' as int}
  {
  }

  /** Lowering keeps an occurrence that is already there byte for byte once lowered. */
  lemma LowerOccursAt(s: Bytes, p: Bytes, i: nat)
    requires i + |p| <= |s| && forall j :: 0 <= j < |p| ==> LowerByte(s[i + j]) == p[j]
    ensures OccursAt(Lower(s), p, i)
  {
    OccursAtByIndex(Lower(s), p, i);
  }

  /** A phrase occurring at the very start is found there. */
  lemma FoundAtStart(s: Bytes, p: Bytes)
    requires OccursAt(s, p, 0)
    ensures Find(s, p) == Some(0)
  {
  }

  /** "The job is complete." signals completion. */
  lemma JobCompleteSignals()
    ensures SignalsCompletion(Ascii("The job is complete."))
  {
    var s := Ascii("The job is complete.");
    NegativeProbesHit();
    assert forall i :: 0 <= i < |s| ==> Lower(s)[i] != 'n' as int;
    NoPatternContained(Lower(s), NEGATIVE_PHRASES, NEGATIVE_PROBE, {'n' as int});
    LowerOccursAt(s, POSITIVE_PHRASES[0], 4);
  }

  /** Any text holding a negative phrase, however the surrounding text reads, is vetoed. */
  lemma NegativeInMiddleVetoes(a: Bytes, b: Bytes, c: Bytes, k: nat)
    requires k < |NEGATIVE_PHRASES| && Lower(b) == NEGATIVE_PHRASES[k]
    ensures !SignalsCompletion(a + b + c)
  {
    LowerAppend(a + b, c);
    LowerAppend(a, b);
    assert OccursAt(Lower(b), NEGATIVE_PHRASES[k], 0);
    OccursInAppend(Lower(a), Lower(b), NEGATIVE_PHRASES[k], 0);
    OccursInAppend(Lower(a) + Lower(b), Lower(c), NEGATIVE_PHRASES[k], |a|);
  }

  /** "The task is not complete yet.", in the parts that matter. */
  const NOT_COMPLETE_YET: Bytes := Ascii("The task is ") + Ascii("not complete") + Ascii(" yet.")

  /** The test text holds "task is" but is vetoed by "not complete" anyway. */
  lemma NotCompleteVetoes()
    ensures !SignalsCompletion(NOT_COMPLETE_YET)
  {
    assert Lower(Ascii("not complete")) == NEGATIVE_PHRASES[0];
    NegativeInMiddleVetoes(Ascii("The task is "), Ascii("not complete"), Ascii(" yet."), 0);
  }

  /** "This is not done.", in the parts that matter, is vetoed. */
  lemma NotDoneVetoes()
    ensures !SignalsCompletion(Ascii("This is ") + Ascii("not done") + Ascii("."))
  {
    assert Lower(Ascii("not done")) == NEGATIVE_PHRASES[1];
    NegativeInMiddleVetoes(Ascii("This is "), Ascii("not done"), Ascii("."), 1);
  }

  /** "The work is incomplete." holds "work is" only as part of a negative phrase. */
  lemma IncompleteVetoes()
    ensures !SignalsCompletion(Ascii("The work is ") + Ascii("incomplete") + Ascii("."))
  {
    assert Lower(Ascii("incomplete")) == NEGATIVE_PHRASES[3];
    NegativeInMiddleVetoes(Ascii("The work is "), Ascii("incomplete"), Ascii("."), 3);
  }

  /** "The job isn't done yet.", in the parts that matter, is vetoed. */
  lemma IsntDoneVetoes()
    ensures !SignalsCompletion(Ascii("The job ") + Ascii("isn't done") + Ascii(" yet."))
  {
    assert Lower(Ascii("isn't done")) == NEGATIVE_PHRASES[5];
    NegativeInMiddleVetoes(Ascii("The job "), Ascii("isn't done"), Ascii(" yet."), 5);
  }

  /** Bytes that rule out every positive phrase for "Running step 3 of 5". */
  const STEP_PROBE: seq<nat> := [0, 0, 0, 1, 1, 1, 0, 0, 0, 2, 1, 1, 1, 1, 0, 0, 3, 2, 0, 0]
  const STEP_PROBE_BYTES: set<byte> := {'j' as int, 'a' as int, 'w' as int, 'c' as int, 'v' as int}

  lemma StepProbesHit()
    ensures |STEP_PROBE| == |POSITIVE_PHRASES|
    ensures forall k :: 0 <= k < |POSITIVE_PHRASES| ==>
              STEP_PROBE[k] < |POSITIVE_PHRASES[k]| && POSITIVE_PHRASES[k][STEP_PROBE[k]] in STEP_PROBE_BYTES
  {
  }

  /** A progress report without any positive phrase does not signal completion. */
  lemma ProgressIsNotCompletion()
    ensures !SignalsCompletion(Ascii("Running step 3 of 5"))
  {
    var s := Ascii("Running step 3 of 5");
    StepProbesHit();
    assert forall i :: 0 <= i < |s| ==> Lower(s)[i] !in STEP_PROBE_BYTES;
    NoPatternContained(Lower(s), POSITIVE_PHRASES, STEP_PROBE, STEP_PROBE_BYTES);
  }

  /** A bare `JOB_DONE` marker holds no space, so no positive phrase. */
  lemma JobDoneMarkerIgnored()
    ensures !SignalsCompletion(Ascii("JOB_DONE"))
  {
    var s := Ascii("JOB_DONE");
    PositiveProbesHit();
    assert forall i :: 0 <= i < |s| ==> Lower(s)[i] != ' ' as int;
    NoPatternContained(Lower(s), POSITIVE_PHRASES, POSITIVE_PROBE, {' ' as int});
  }

  /** A bare `TASK_COMPLETE` marker, as a tool might print it, holds neither an `n` nor a
      space, so it does not signal completion. */
  lemma InjectedMarkerIgnored()
    ensures !SignalsCompletion(Ascii("TASK_COMPLETE"))
  {
    var s := Ascii("TASK_COMPLETE");
    NegativeProbesHit();
    PositiveProbesHit();
    assert forall i :: 0 <= i < |s| ==> Lower(s)[i] != 'n' as int && Lower(s)[i] != ' ' as int;
    NoPatternContained(Lower(s), NEGATIVE_PHRASES, NEGATIVE_PROBE, {'n' as int});
    NoPatternContained(Lower(s), POSITIVE_PHRASES, POSITIVE_PROBE, {' ' as int});
  }

  /** A text that opens with an intent phrase and names `t` right after the phrase, within the
      80-byte window, has `t` in the window searched after that phrase. */
  lemma PhraseThenTool(a: Bytes, phrase: Bytes, t: Bytes, c: Bytes)
    requires OccursAt(a, phrase, 0) && |a + t + c| <= |phrase| + TOOL_WINDOW
    ensures Find(a + t + c, phrase) == Some(0)
    ensures Contains(IntentWindow(a + t + c, |phrase|), t)
  {
    OccursInAppend(a, t, phrase, 0);
    OccursInAppend(a + t, c, phrase, 0);
    FoundAtStart(a + t + c, phrase);
    assert OccursAt(t, t, 0);
    OccursInAppend(a, t, t, 0);
    OccursInAppend(a + t, c, t, |a|);
    OccursInWindow(a + t + c, |phrase|, t, |a|);
  }

  lemma ToolNameIsLower() ensures Lower(Ascii("MEMORY_SEARCH")) == Ascii("memory_search") { }

  lemma MemorySearchSpelledOut()
    ensures ReplaceByte(Lower(Ascii("memory_search")), UNDERSCORE, SPACE) == Ascii("memory search")
  {
  }

  /** "I'll use MEMORY_SEARCH to look that up.", in the parts that matter. */
  const USE_MEMORY_SEARCH: Bytes := Ascii("I'll use ") + Ascii("MEMORY_SEARCH") + Ascii(" to look that up.")

  /** The test text names the tool right after an intent phrase, in capitals; lowering both
      makes them meet, so the detector fires. */
  lemma UpperCaseToolDetected()
    ensures WindowHit(Lower(USE_MEMORY_SEARCH), INTENT_PHRASES[0], Ascii("memory_search"))
  {
    var a, b, c := Ascii("I'll use "), Ascii("MEMORY_SEARCH"), Ascii(" to look that up.");
    LowerAppend(a + b, c);
    LowerAppend(a, b);
    assert Lower(a) == Ascii("i'll use ");
    ToolNameIsLower();
    assert INTENT_PHRASES[0] == Ascii("i'll use");
    assert OccursAt(Lower(a), INTENT_PHRASES[0], 0);
    PhraseThenTool(Lower(a), INTENT_PHRASES[0], Lower(b), Lower(c));
    assert Lower(Ascii("memory_search")) == Lower(b);
  }

  /** "I can use memory search to find that information.", in the parts that matter. */
  const CAN_USE_MEMORY_SEARCH: Bytes := Ascii("I can use ") + Ascii("memory search") + Ascii(" to find that information.")

  /** A tool name written with a space for its underscore also counts. */
  lemma SpacedToolDetected()
    ensures WindowHit(Lower(CAN_USE_MEMORY_SEARCH), INTENT_PHRASES[27], Ascii("memory_search"))
  {
    var a, b, c := Ascii("I can use "), Ascii("memory search"), Ascii(" to find that information.");
    LowerAppend(a + b, c);
    LowerAppend(a, b);
    assert Lower(a) == Ascii("i can use ");
    assert Lower(b) == b;
    MemorySearchSpelledOut();
    assert INTENT_PHRASES[27] == Ascii("i can use");
    assert OccursAt(Lower(a), INTENT_PHRASES[27], 0);
    PhraseThenTool(Lower(a), INTENT_PHRASES[27], b, Lower(c));
  }
}
