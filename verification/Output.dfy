/**
 The output of the parser, one 32-bit word per step (fpp_lsp_parser/src/output.rs).

 Words are modelled by their values. The fields of a word never overlap, so `|` of shifted
 fields is their sum, and masking and shifting a field down is a quotient and a remainder.
 */
module Packing {
  import opened Syntax

  const WORD := 0x1_0000_0000

  type uint32 = w: nat | w < WORD
  type uint8 = n: nat | n < 0x100

  const EVENT_BIT := 0x1
  const TAG_UNIT := 0x10
  const TAGS := 0x10
  const N_INPUT_TOKEN_UNIT := 0x100
  const KIND_UNIT := 0x1_0000
  const MAX_ERRORS := 0x8000_0000

  const TOKEN_EVENT := 0
  const ENTER_EVENT := 1
  const EXIT_EVENT := 2
  const EXPECTED_EVENT := 3

  function Word(kind: SyntaxKind, nInputTokens: uint8, tag: nat): uint32
    requires tag < TAGS
  {
    kind * KIND_UNIT + nInputTokens * N_INPUT_TOKEN_UNIT + tag * TAG_UNIT + EVENT_BIT
  }

  function KindOf(word: uint32): nat {
    word / KIND_UNIT
  }

  function InputTokensOf(word: uint32): uint8 {
    word / N_INPUT_TOKEN_UNIT % 0x100
  }

  function TagOf(word: uint32): nat {
    word / TAG_UNIT % TAGS
  }

  /** The word for the error stored at `index`: the index is cut to 32 bits, then shifted. */
  function ErrorWord(index: nat): uint32 {
    index % WORD * 2 % WORD
  }

  lemma WordFields(kind: SyntaxKind, nInputTokens: uint8, tag: nat)
    requires tag < TAGS
    ensures var w := Word(kind, nInputTokens, tag);
            w % 2 == 1 && KindOf(w) == kind && InputTokensOf(w) == nInputTokens && TagOf(w) == tag
  {
    var w := Word(kind, nInputTokens, tag);
    assert w / TAG_UNIT == (kind * 0x100 + nInputTokens) * TAGS + tag;
    assert w / N_INPUT_TOKEN_UNIT == kind * 0x100 + nInputTokens;
  }

  /** An error is found again under its index modulo 2^31. */
  lemma ErrorWordIndex(index: nat)
    ensures ErrorWord(index) % 2 == 0 && ErrorWord(index) / 2 == index % MAX_ERRORS
  {
  }

  /** Whether a word stands for a step, given how many errors are stored. */
  predicate IsWord(word: uint32, errors: nat) {
    if word % 2 == 0 then word / 2 < errors else TagOf(word) <= EXPECTED_EVENT && KindOf(word) <= LAST_KIND
  }

  function Decode(word: uint32, error: seq<string>): Step
    requires IsWord(word, |error|)
  {
    if word % 2 == 0 then
      Error(error[word / 2])
    else if TagOf(word) == TOKEN_EVENT then
      Token(KindOf(word), InputTokensOf(word))
    else if TagOf(word) == ENTER_EVENT then
      Enter(KindOf(word))
    else if TagOf(word) == EXIT_EVENT then
      Exit
    else
      Expected(KindOf(word))
  }

  // ---- Reading errors back -------------------------------------------------

  /** The messages of the errors among the steps. */
  function Messages(steps: seq<Step>): (ms: seq<string>) {
    if steps == [] then
      []
    else
      var last := steps[|steps| - 1];
      Messages(steps[..|steps| - 1]) + if last.Error? then [last.msg] else []
  }

  /** The steps as they are read back: from the 2^31st error on, an error has the message of
      an earlier one. */
  function ReadBack(steps: seq<Step>): (r: seq<Step>)
    ensures |r| == |steps|
    ensures forall i :: 0 <= i < |steps| && !steps[i].Error? ==> r[i] == steps[i]
    ensures forall i :: 0 <= i < |steps| ==> (r[i].Error? <==> steps[i].Error?)
  {
    if steps == [] then
      []
    else
      var init, last := steps[..|steps| - 1], steps[|steps| - 1];
      ReadBack(init) + [if last.Error? then Error(Messages(steps)[|Messages(init)| % MAX_ERRORS]) else last]
  }

  lemma NothingReadBack()
    ensures ReadBack([]) == [] && Messages([]) == []
  {
  }

  lemma ReadBackSnoc(steps: seq<Step>, step: Step)
    ensures Messages(steps + [step]) == Messages(steps) + if step.Error? then [step.msg] else []
    ensures ReadBack(steps + [step])
         == ReadBack(steps)
            + [if step.Error? then Error((Messages(steps) + [step.msg])[|Messages(steps)| % MAX_ERRORS]) else step]
  {
    assert (steps + [step])[..|steps|] == steps;
  }

  lemma {:induction false} ReadBackAppend(a: seq<Step>, b: seq<Step>)
    requires forall i :: 0 <= i < |b| ==> !b[i].Error?
    ensures ReadBack(a + b) == ReadBack(a) + b && Messages(a + b) == Messages(a)
  {
    if b == [] {
      assert a + b == a;
    } else {
      var init := b[..|b| - 1];
      ReadBackAppend(a, init);
      ReadBackSnoc(a + init, b[|b| - 1]);
      assert a + b == a + init + [b[|b| - 1]];
    }
  }

  /** Up to 2^31 errors, every step is read back as it was. */
  lemma {:induction false} ReadBackExact(steps: seq<Step>)
    requires |Messages(steps)| <= MAX_ERRORS
    ensures ReadBack(steps) == steps
  {
    if steps != [] {
      var init := steps[..|steps| - 1];
      ReadBackExact(init);
      assert steps == init + [steps[|steps| - 1]];
    }
  }

  class Output {
    var event: seq<uint32>
    var error: seq<string>

    ghost predicate Valid()
      reads this
    {
      forall i :: 0 <= i < |event| ==> IsWord(event[i], |error|)
    }

    /** The steps that the output iterates over. */
    function Iter(): (steps: seq<Step>)
      requires Valid()
      reads this
      ensures |steps| == |event|
      ensures forall i :: 0 <= i < |event| ==> steps[i] == Decode(event[i], error)
    {
      seq(|event|, i requires 0 <= i < |event| reads this requires Valid() => Decode(event[i], error))
    }

    constructor ()
      ensures Valid() && Iter() == [] && error == []
    {
      event := [];
      error := [];
    }

    method Token(kind: SyntaxKind, nTokens: uint8)
      requires Valid()
      modifies this
      ensures Valid() && Iter() == old(Iter()) + [Step.Token(kind, nTokens)] && error == old(error)
    {
      WordFields(kind, nTokens, TOKEN_EVENT);
      event := event + [Word(kind, nTokens, TOKEN_EVENT)];
    }

    method EnterNode(kind: SyntaxKind)
      requires Valid()
      modifies this
      ensures Valid() && Iter() == old(Iter()) + [Step.Enter(kind)] && error == old(error)
    {
      WordFields(kind, 0, ENTER_EVENT);
      event := event + [Word(kind, 0, ENTER_EVENT)];
    }

    method LeaveNode()
      requires Valid()
      modifies this
      ensures Valid() && Iter() == old(Iter()) + [Step.Exit] && error == old(error)
    {
      WordFields(0, 0, EXIT_EVENT);
      event := event + [Word(0, 0, EXIT_EVENT)];
    }

    method Expected(kind: SyntaxKind)
      requires Valid()
      modifies this
      ensures Valid() && Iter() == old(Iter()) + [Step.Expected(kind)] && error == old(error)
    {
      WordFields(kind, 0, EXPECTED_EVENT);
      event := event + [Word(kind, 0, EXPECTED_EVENT)];
    }

    /** From the 2^31st error on, a stored error reads back as an earlier one. */
    method Error(msg: string)
      requires Valid()
      modifies this
      ensures Valid() && error == old(error) + [msg]
      ensures Iter() == old(Iter()) + [Step.Error(error[|old(error)| % MAX_ERRORS])]
    {
      var idx := |error|;
      ErrorWordIndex(idx);
      error := error + [msg];
      event := event + [ErrorWord(idx)];
    }
  }
}
