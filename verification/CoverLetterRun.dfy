/** The drafting, corrective-retry and quality-gate loops of `CoverLetterAgent.run`
    (apps/api/app/agents/cover_letter_agent.py). The model, the guards, the scorer and the
    text filters are arbitrary functions; what is proved is what the loops do with them.
 */
module CoverLetterRun {
  import opened Shared

  /** The score of a letter body. `alignmentMeasured` is false when the posting gave no
      keyword the evidence supports. */
  datatype Quality = Quality(overall: real, alignment: real, grounding: real, structure: real,
                             alignmentMeasured: bool)

  /** A draft with what the guards said of it. Its letter is the composed body. */
  datatype Draft = Draft(body: string, flagged: seq<string>, claims: seq<string>,
                         issues: seq<string>, meta: seq<string>)
  {
    predicate AllClear() {
      flagged == [] && claims == [] && issues == [] && meta == []
    }
  }

  /** How one call of `_draft` ends. */
  datatype Response = Drafted(draft: Draft) | Unavailable(retryable: bool) | FixtureMissing

  datatype Tools = Tools(
    llm: nat -> Response,                 // the k-th call of this run, whatever its prompt
    affordable: nat -> bool,              // whether the budget lasts for one more gate pass
    score: string -> Quality,
    compose: string -> string,
    stripOpeners: string -> string,
    firstPerson: string -> string,
    leakTokens: string -> seq<string>,
    stripLeaks: (string, seq<string>) -> string,
    stripCompliance: string -> string,
    structural: string -> seq<string>,
    placeholderName: string -> bool)

  datatype Stage = Initial | Retry(attempt: nat) | Gate(attempt: nat) | Shipping

  /** An entry of `quality_iterations`. `kept` says that the draft became the letter in hand;
      it always does outside the gate loop. */
  datatype Pass = Pass(stage: Stage, quality: Quality, kept: bool, clean: bool)

  datatype LetterQuality = LetterQuality(final: Quality, initialScore: real, delta: real,
                                         passes: seq<Pass>, gateAttempts: nat)

  datatype Result =
    | Shipped(letter: string, quality: LetterQuality)
    | NoLetter(retryable: bool)
    | Fabrication(terms: seq<string>)
    | Structural(problems: seq<string>)
    | PlaceholderSigner
    | Raised                              // the model's exception propagates

  const MIN_RETRIES := 2
  const MAX_RETRIES := 4
  const DEFAULT_GATE_PASSES := 2
  const MAX_GATE_PASSES := 4
  const FLOOR := 80.0

  /** `_corrective_retry_labels`: None stands for an absent or malformed knob. */
  function RetryCount(knob: Option<int>): nat {
    var requested := if knob.Some? then knob.value else MIN_RETRIES;
    if requested < MIN_RETRIES then MIN_RETRIES
    else if requested > MAX_RETRIES then MAX_RETRIES else requested
  }

  /** `gate_extra_attempts`. */
  function GateCount(env: Option<int>): nat {
    var requested := if env.Some? then env.value else DEFAULT_GATE_PASSES;
    if requested < 0 then 0 else if requested > MAX_GATE_PASSES then MAX_GATE_PASSES else requested
  }

  function Dimensions(q: Quality): seq<(real, bool)> {
    [(q.overall, true), (q.alignment, q.alignmentMeasured), (q.grounding, true), (q.structure, true)]
  }

  predicate Passes(d: (real, bool)) {
    d.1 && d.0 > FLOOR
  }

  /** `needs_gate_pass`: the verdict fails, and on something that was measured. */
  predicate NeedsGatePass(q: Quality) {
    exists d | d in Dimensions(q) :: !Passes(d) && d.1
  }

  /** `accept_gate_candidate`. */
  predicate Accepts(candidate: Quality, incumbent: real, clean: bool) {
    clean && candidate.overall > incumbent
  }

  /** The deterministic clean-up of an adjudicated body, in the source's order. */
  function Polished(tools: Tools, body: string): string {
    var voice := tools.firstPerson(tools.stripOpeners(body));
    var tokens := tools.leakTokens(voice);
    tools.stripCompliance(if tokens == [] then voice else tools.stripLeaks(voice, tokens))
  }

  /** The draft in hand: the last one kept. */
  function InHand(passes: seq<Pass>): int {
    if passes == [] then -1
    else if passes[|passes| - 1].kept then |passes| - 1
    else InHand(passes[..|passes| - 1])
  }

  lemma {:induction false} InHandIsLastKept(passes: seq<Pass>)
    requires passes != [] && passes[0].kept
    ensures 0 <= InHand(passes) < |passes| && passes[InHand(passes)].kept
    ensures forall i | InHand(passes) < i < |passes| :: !passes[i].kept
  {
    if !passes[|passes| - 1].kept {
      InHandIsLastKept(passes[..|passes| - 1]);
    }
  }

  /** Records only grow at the end, so what held of earlier passes still holds. */
  lemma ConsistentAfter(tools: Tools, drafts: seq<Draft>, passes: seq<Pass>, d: Draft, p: Pass)
    requires Consistent(tools, drafts, passes)
    requires PassOk(tools, drafts + [d], passes + [p], |passes|)
    ensures Consistent(tools, drafts + [d], passes + [p])
  {
    forall i | 0 <= i < |passes| ensures PassOk(tools, drafts + [d], passes + [p], i) {
      assert PassOk(tools, drafts, passes, i);
      assert (passes + [p])[..i] == passes[..i];
    }
  }

  lemma LastPass(passes: seq<Pass>, p: Pass)
    ensures InHand(passes + [p]) == if p.kept then |passes| else InHand(passes)
    ensures GatePasses(passes + [p]) == GatePasses(passes) + if p.stage.Gate? then 1 else 0
  {
    assert (passes + [p])[..|passes|] == passes;
  }

  predicate Drafting(p: Pass) {
    p.stage.Initial? || p.stage.Retry?
  }

  /** What a record of passes over drafts must look like. */
  ghost predicate Consistent(tools: Tools, drafts: seq<Draft>, passes: seq<Pass>) {
    && |drafts| == |passes| > 0
    && (forall i | 0 <= i < |passes| :: PassOk(tools, drafts, passes, i))
  }

  /** Pass i scores its own draft; the first is the initial draft; a retry follows only a
      draft with some violation; a gate pass follows only an all-clear letter with a
      measured dimension at or below the floor, and is kept exactly when it is all clear
      and scores strictly higher than the letter in hand. */
  ghost predicate PassOk(tools: Tools, drafts: seq<Draft>, passes: seq<Pass>, i: nat)
    requires |drafts| == |passes| && i < |passes|
  {
    var p := passes[i];
    && p.quality == tools.score(drafts[i].body)
    && (i == 0 <==> p.stage.Initial?) && !p.stage.Shipping?
    && (Drafting(p) ==> p.kept)
    && (p.stage.Retry? ==> Drafting(passes[i - 1]) && !drafts[i - 1].AllClear())
    && (p.stage.Gate? ==>
          var held := InHand(passes[..i]);
          && 0 <= held < i && drafts[held].AllClear() && NeedsGatePass(passes[held].quality)
          && p.clean == drafts[i].AllClear()
          && (p.kept <==> drafts[i].AllClear() && p.quality.overall > passes[held].quality.overall))
  }

  /** The verdict on the letter in hand. */
  function Adjudicated(tools: Tools, draft: Draft, passes: seq<Pass>, gateAttempts: nat): Result
    requires passes != []
  {
    var body := Polished(tools, draft.body);
    if draft.flagged != [] then Fabrication(draft.flagged)
    else if draft.claims != [] then Fabrication(draft.claims)
    else if tools.structural(body) != [] then Structural(tools.structural(body))
    else Shipped(tools.compose(body), BuildQuality(tools.score(body), passes, gateAttempts))
  }

  /** `build_letter_quality`, rounding aside. */
  function BuildQuality(final: Quality, passes: seq<Pass>, gateAttempts: nat): LetterQuality {
    var initial := if passes == [] then final.overall else passes[0].quality.overall;
    LetterQuality(final, initial, final.overall - initial, passes + [Pass(Shipping, final, true, true)], gateAttempts)
  }

  function GatePasses(passes: seq<Pass>): nat {
    if passes == [] then 0
    else GatePasses(passes[..|passes| - 1]) + if passes[|passes| - 1].stage.Gate? then 1 else 0
  }

  /** Every draft is an answer the model gave in this run. */
  ghost predicate FromModel(tools: Tools, drafts: seq<Draft>, calls: nat) {
    forall d | d in drafts :: exists k | 0 <= k < calls :: tools.llm(k) == Drafted(d)
  }

  lemma FromModelAfter(tools: Tools, drafts: seq<Draft>, calls: nat, d: Draft)
    requires FromModel(tools, drafts, calls) && tools.llm(calls) == Drafted(d)
    ensures FromModel(tools, drafts + [d], calls + 1)
  {
    forall e | e in drafts + [d] ensures exists k | 0 <= k < calls + 1 :: tools.llm(k) == Drafted(e) {
      if e in drafts {
        var k :| 0 <= k < calls && tools.llm(k) == Drafted(e);
        assert 0 <= k < calls + 1;
      }
    }
  }

  lemma MoreCalls(tools: Tools, drafts: seq<Draft>, calls: nat)
    requires FromModel(tools, drafts, calls)
    ensures FromModel(tools, drafts, calls + 1)
  {
    forall d | d in drafts ensures exists k | 0 <= k < calls + 1 :: tools.llm(k) == Drafted(d) {
      var k :| 0 <= k < calls && tools.llm(k) == Drafted(d);
      assert 0 <= k < calls + 1;
    }
  }

  /** The record of a run so far: passes over drafts, all from the model, and the draft in hand. */
  ghost predicate Recorded(tools: Tools, drafts: seq<Draft>, passes: seq<Pass>, draft: Draft, calls: nat) {
    && Consistent(tools, drafts, passes) && FromModel(tools, drafts, calls)
    && 0 <= InHand(passes) < |drafts| && draft == drafts[InHand(passes)]
  }

  /** The corrective loop: drafts again while there is a violation and a retry left. */
  method Correct(tools: Tools, initial: Draft, retries: nat)
    returns (raised: bool, draft: Draft, iterations: seq<Pass>, calls: nat, ghost drafts: seq<Draft>)
    requires tools.llm(0) == Drafted(initial)
    ensures 1 <= calls <= 1 + retries
    ensures !raised ==> Recorded(tools, drafts, iterations, draft, calls) && GatePasses(iterations) == 0
  {
    raised, draft, calls, drafts := false, initial, 1, [initial];
    iterations := [Pass(Initial, tools.score(draft.body), true, draft.AllClear())];
    assert FromModel(tools, drafts, 1);
    var attempt := 0;
    while attempt < retries && !draft.AllClear()
      invariant 0 <= attempt <= retries && calls == 1 + attempt && |drafts| == 1 + attempt
      invariant Consistent(tools, drafts, iterations) && FromModel(tools, drafts, calls)
      invariant draft == drafts[|drafts| - 1] && InHand(iterations) == |drafts| - 1
      invariant forall p | p in iterations :: Drafting(p)
      invariant GatePasses(iterations) == 0
    {
      var response := tools.llm(calls);
      if response.Unavailable? {
        return true, draft, iterations, calls + 1, drafts;
      }
      if response.FixtureMissing? {
        MoreCalls(tools, drafts, calls);
        calls := calls + 1;
        break;
      }
      var pass := Pass(Retry(attempt), tools.score(response.draft.body), true, response.draft.AllClear());
      LastPass(iterations, pass);
      FromModelAfter(tools, drafts, calls, response.draft);
      ConsistentAfter(tools, drafts, iterations, response.draft, pass);
      calls := calls + 1;
      draft := response.draft;
      iterations := iterations + [pass];
      drafts := drafts + [draft];
      attempt := attempt + 1;
    }
  }

  /** The gate loop: optional passes that may only replace a clean letter by a better clean one. */
  method Improve(tools: Tools, inHand: Draft, record: seq<Pass>, used: nat, gates: nat, ghost before: seq<Draft>)
    returns (draft: Draft, iterations: seq<Pass>, gateAttempts: nat, calls: nat, ghost drafts: seq<Draft>)
    requires Recorded(tools, before, record, inHand, used) && GatePasses(record) == 0
    ensures used <= calls <= used + gates
    ensures Recorded(tools, drafts, iterations, draft, calls) && GatePasses(iterations) == gateAttempts
  {
    draft, iterations, gateAttempts, calls, drafts := inHand, record, 0, used, before;
    assert PassOk(tools, drafts, iterations, InHand(iterations));
    var best := tools.score(draft.body);
    var gate := 0;
    while gate < gates
      invariant 0 <= gate <= gates && gateAttempts == gate && calls == used + gate
      invariant Recorded(tools, drafts, iterations, draft, calls) && GatePasses(iterations) == gateAttempts
      invariant best == tools.score(draft.body) == iterations[InHand(iterations)].quality
    {
      if !draft.AllClear() || !NeedsGatePass(best) || !tools.affordable(gate) {
        break;
      }
      var response := tools.llm(calls);
      if !response.Drafted? {
        MoreCalls(tools, drafts, calls);
        calls := calls + 1;
        break;
      }
      gateAttempts := gateAttempts + 1;
      var quality, clean := tools.score(response.draft.body), response.draft.AllClear();
      var accepted := Accepts(quality, best.overall, clean);
      var pass := Pass(Gate(gate), quality, accepted, clean);
      assert (iterations + [pass])[..|iterations|] == iterations;
      LastPass(iterations, pass);
      FromModelAfter(tools, drafts, calls, response.draft);
      ConsistentAfter(tools, drafts, iterations, response.draft, pass);
      calls := calls + 1;
      iterations := iterations + [pass];
      drafts := drafts + [response.draft];
      if accepted {
        draft := response.draft;
        best := quality;
      }
      gate := gate + 1;
    }
  }

  /** The gates after the loops, and the deterministic clean-up between them. */
  method Adjudicate(tools: Tools, draft: Draft, iterations: seq<Pass>, gateAttempts: nat) returns (r: Result)
    requires iterations != []
    ensures r == Adjudicated(tools, draft, iterations, gateAttempts)
  {
    if draft.flagged != [] {
      return Fabrication(draft.flagged);
    }
    if draft.claims != [] {
      return Fabrication(draft.claims);
    }
    var body, letter := draft.body, tools.compose(draft.body);
    body, letter := Refresh(tools, body, letter, tools.stripOpeners(body));
    body, letter := Refresh(tools, body, letter, tools.firstPerson(body));
    var tokens := tools.leakTokens(body);
    if tokens != [] {
      body, letter := Refresh(tools, body, letter, tools.stripLeaks(body, tokens));
    }
    body, letter := Refresh(tools, body, letter, tools.stripCompliance(body));
    var remaining := tools.structural(body);
    if remaining != [] {
      return Structural(remaining);
    }
    r := Shipped(letter, BuildQuality(tools.score(body), iterations, gateAttempts));
  }

  /** The whole run. Its outcome is the verdict on the letter in hand; the model is called
      at most once, plus the clamped retries, plus the gate passes; a placeholder signer is
      refused before the first call. */
  method Run(tools: Tools, signer: string, knob: Option<int>, env: Option<int>)
    returns (r: Result, calls: nat, ghost drafts: seq<Draft>, ghost passes: seq<Pass>)
    ensures r == PlaceholderSigner <==> signer != "" && tools.placeholderName(signer)
    ensures r == PlaceholderSigner ==> calls == 0
    ensures calls <= 1 + RetryCount(knob) + GateCount(env)
    ensures r.NoLetter? ==> calls == 1 && tools.llm(0) == Unavailable(r.retryable)
    ensures r.Shipped? || r.Fabrication? || r.Structural? ==>
              && 0 <= InHand(passes) < |drafts|
              && Recorded(tools, drafts, passes, drafts[InHand(passes)], calls)
              && r == Adjudicated(tools, drafts[InHand(passes)], passes, GatePasses(passes))
  {
    drafts, passes, calls := [], [], 0;
    if signer != "" && tools.placeholderName(signer) {
      return PlaceholderSigner, 0, [], [];
    }
    var first := tools.llm(0);
    if first.Unavailable? {
      return NoLetter(first.retryable), 1, [], [];
    }
    if first.FixtureMissing? {
      return Raised, 1, [], [];
    }
    var raised, draft, iterations, used, before := Correct(tools, first.draft, RetryCount(knob));
    calls := used;
    if raised {
      return Raised, calls, [], [];
    }
    var gateAttempts;
    draft, iterations, gateAttempts, calls, drafts := Improve(tools, draft, iterations, used, GateCount(env), before);
    passes := iterations;
    r := Adjudicate(tools, draft, iterations, gateAttempts);
  }

  /** The letter is recomposed only when a filter changed the body, and so stays in step. */
  method Refresh(tools: Tools, body: string, letter: string, cleaned: string) returns (body': string, letter': string)
    requires letter == tools.compose(body)
    ensures body' == cleaned && letter' == tools.compose(cleaned)
  {
    body', letter' := body, letter;
    if cleaned != body {
      body' := cleaned;
      letter' := tools.compose(cleaned);
    }
  }

  // -------------------------------------------------------------- consequences

  /** The overall scores of the letters in hand never fall, and each accepted gate pass
      beats everything accepted, or drafted last, before it. */
  lemma {:induction false} AcceptedScoresRise(tools: Tools, drafts: seq<Draft>, passes: seq<Pass>, i: nat, j: nat)
    requires Consistent(tools, drafts, passes)
    requires i < j < |passes| && passes[i].kept && passes[j].kept && passes[j].stage.Gate?
    requires i == InHand(passes[..j]) || passes[i].stage.Gate?
    ensures drafts[j].AllClear() && passes[j].quality.overall > passes[i].quality.overall
    decreases j
  {
    assert PassOk(tools, drafts, passes, j) && PassOk(tools, drafts, passes, 0);
    var held := InHand(passes[..j]);
    InHandIsLastKept(passes[..j]);
    assert passes[..j][held] == passes[held];
    if i != held {
      assert i < held by {
        assert passes[..j][i].kept;
      }
      StaysInGates(tools, drafts, passes, i, held);
      AcceptedScoresRise(tools, drafts, passes, i, held);
    }
  }

  /** After a gate pass there are only gate passes. */
  lemma {:induction false} StaysInGates(tools: Tools, drafts: seq<Draft>, passes: seq<Pass>, i: nat, j: nat)
    requires Consistent(tools, drafts, passes) && i < j < |passes| && passes[i].stage.Gate?
    ensures passes[j].stage.Gate?
    decreases j
  {
    assert PassOk(tools, drafts, passes, j);
    if j > i + 1 {
      StaysInGates(tools, drafts, passes, i, j - 1);
    }
  }

  /** A shipped letter carries no guard flag, no claim flag and no structural problem, is
      the composition of exactly the body that was scored, and records the first draft's
      score next to its own. */
  lemma ShippedIsClean(tools: Tools, drafts: seq<Draft>, passes: seq<Pass>, r: Result)
    requires Consistent(tools, drafts, passes) && 0 <= InHand(passes) < |drafts|
    requires r == Adjudicated(tools, drafts[InHand(passes)], passes, GatePasses(passes)) && r.Shipped?
    ensures var d := drafts[InHand(passes)];
            var body := Polished(tools, d.body);
            && d.flagged == [] && d.claims == [] && tools.structural(body) == []
            && r.letter == tools.compose(body) && r.quality.final == tools.score(body)
            && r.quality.initialScore == tools.score(drafts[0].body).overall
            && r.quality.initialScore + r.quality.delta == tools.score(body).overall
            && |r.quality.passes| == |drafts| + 1 && r.quality.passes[|drafts|].quality == r.quality.final
    ensures r.quality.gateAttempts > 0 ==> drafts[InHand(passes)].AllClear()
  {
    assert PassOk(tools, drafts, passes, 0);
    if GatePasses(passes) > 0 {
      LastIsGate(tools, drafts, passes);
      var last := |passes| - 1;
      assert PassOk(tools, drafts, passes, last);
      InHandIsLastKept(passes[..last]);
      assert passes == passes[..last] + [passes[last]];
      LastPass(passes[..last], passes[last]);
    }
  }

  lemma {:induction false} LastIsGate(tools: Tools, drafts: seq<Draft>, passes: seq<Pass>)
    requires Consistent(tools, drafts, passes) && GatePasses(passes) > 0
    ensures passes[|passes| - 1].stage.Gate?
  {
    var last := |passes| - 1;
    if !passes[last].stage.Gate? {
      assert PassOk(tools, drafts, passes, last);
      assert passes[..last] != [] by {
        assert GatePasses(passes[..last]) > 0;
      }
      forall i | 0 <= i < last ensures PassOk(tools, drafts[..last], passes[..last], i) {
        assert PassOk(tools, drafts, passes, i);
        assert passes[..last][..i] == passes[..i];
      }
      LastIsGate(tools, drafts[..last], passes[..last]);
      StaysInGates(tools, drafts, passes, last - 1, last);
    }
  }
}
