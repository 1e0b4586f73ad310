/** The Gilbert-Elliot two-state loss model. The random samples the Rust
    implementation draws from a uniform distribution on [0, 1) are inputs
    here. */
module PathLoss {

  datatype GilbertElliotState = Good | Bad

  /** The four probabilities fixed at construction. */
  datatype LossParams = LossParams(
    probGoodToBad: real,
    probBadToGood: real,
    errRateGood: real,
    errRateBad: real)

  /** A value the uniform sampler on [0, 1) can produce. */
  predicate IsSample(u: real) {
    0.0 <= u < 1.0
  }

  /** The state after one transition check with sample `u`. */
  function NextState(p: LossParams, s: GilbertElliotState, u: real): GilbertElliotState {
    match s
    case Good => if u < p.probGoodToBad then Bad else Good
    case Bad => if u < p.probBadToGood then Good else Bad
  }

  function ErrRate(p: LossParams, s: GilbertElliotState): real {
    match s
    case Good => p.errRateGood
    case Bad => p.errRateBad
  }

  /** The loss decision: the message gets through when the second sample is
      at least the error rate of the given state. */
  function Survives(p: LossParams, s: GilbertElliotState, u: real): bool {
    u >= ErrRate(p, s)
  }

  /** One call of `transmit`: the state it used and whether the message got through. */
  datatype Attempt = Attempt(state: GilbertElliotState, survived: bool)

  /** A pair of samples: the transition sample, then the loss sample. */
  datatype Samples = Samples(transition: real, loss: real)

  predicate AllSamples(samples: seq<Samples>) {
    forall i :: 0 <= i < |samples| ==> IsSample(samples[i].transition) && IsSample(samples[i].loss)
  }

  /** Successive calls of `transmit` on one link starting in state `s`. Each
      attempt first moves the state, then decides loss in the state it moved to. */
  function Attempts(p: LossParams, s: GilbertElliotState, samples: seq<Samples>): (r: seq<Attempt>)
    ensures |r| == |samples|
    ensures |r| > 0 ==> r[0].state == NextState(p, s, samples[0].transition)
    ensures forall i :: 0 < i < |r| ==> r[i].state == NextState(p, r[i - 1].state, samples[i].transition)
    ensures forall i :: 0 <= i < |r| ==> r[i].survived == Survives(p, r[i].state, samples[i].loss)
    decreases |samples|
  {
    if samples == [] then []
    else
      var s' := NextState(p, s, samples[0].transition);
      [Attempt(s', Survives(p, s', samples[0].loss))] + Attempts(p, s', samples[1..])
  }

  /** With both error rates 0, no message is ever dropped. */
  lemma ZeroErrorRatesNeverDrop(p: LossParams, s: GilbertElliotState, samples: seq<Samples>)
    requires p.errRateGood == 0.0 && p.errRateBad == 0.0
    requires AllSamples(samples)
    ensures forall i :: 0 <= i < |samples| ==> Attempts(p, s, samples)[i].survived
  {
  }

  /** With both error rates 1, every message is dropped. */
  lemma UnitErrorRatesAlwaysDrop(p: LossParams, s: GilbertElliotState, samples: seq<Samples>)
    requires p.errRateGood == 1.0 && p.errRateBad == 1.0
    requires AllSamples(samples)
    ensures forall i :: 0 <= i < |samples| ==> !Attempts(p, s, samples)[i].survived
  {
  }

  /** With no chance of leaving Good, a link that starts in Good stays there,
      and every decision uses the Good error rate. */
  lemma {:induction false} StaysGood(p: LossParams, samples: seq<Samples>)
    requires p.probGoodToBad == 0.0
    requires AllSamples(samples)
    ensures forall i :: 0 <= i < |samples| ==>
      Attempts(p, Good, samples)[i].state == Good &&
      (Attempts(p, Good, samples)[i].survived <==> samples[i].loss >= p.errRateGood)
  {
    var r := Attempts(p, Good, samples);
    forall i | 0 <= i < |samples| ensures r[i].state == Good {
      StaysGoodAt(p, samples, i);
    }
  }

  lemma {:induction false} StaysGoodAt(p: LossParams, samples: seq<Samples>, i: nat)
    requires p.probGoodToBad == 0.0
    requires AllSamples(samples)
    requires i < |samples|
    ensures Attempts(p, Good, samples)[i].state == Good
    decreases i
  {
    var r := Attempts(p, Good, samples);
    if i == 0 {
      assert IsSample(samples[0].transition);
    } else {
      StaysGoodAt(p, samples, i - 1);
      assert IsSample(samples[i].transition);
    }
  }

  /** The shared lossy link. `maybe_next_state` updates the state in place;
      `transmit` uses the state it leaves behind. */
  class GilbertElliot {
    const params: LossParams
    var state: GilbertElliotState

    constructor (probGoodToBad: real, probBadToGood: real, errRateGood: real, errRateBad: real)
      ensures params == LossParams(probGoodToBad, probBadToGood, errRateGood, errRateBad)
      ensures state == Good
    {
      params := LossParams(probGoodToBad, probBadToGood, errRateGood, errRateBad);
      state := Good;
    }

    method MaybeNextState(sample: real) returns (s: GilbertElliotState)
      modifies this
      ensures state == NextState(params, old(state), sample) && s == state
      ensures old(state) == Good ==> (state == Bad <==> sample < params.probGoodToBad)
      ensures old(state) == Bad ==> (state == Good <==> sample < params.probBadToGood)
    {
      match state {
        case Good =>
          if sample < params.probGoodToBad {
            state := Bad;
          }
        case Bad =>
          if sample < params.probBadToGood {
            state := Good;
          }
      }
      s := state;
    }

    method Transmit(transitionSample: real, lossSample: real) returns (survived: bool)
      modifies this
      ensures state == NextState(params, old(state), transitionSample)
      ensures [Attempt(state, survived)] == Attempts(params, old(state), [Samples(transitionSample, lossSample)])
      ensures survived <==> lossSample >= ErrRate(params, state)
    {
      var s := MaybeNextState(transitionSample);
      survived := Survives(params, s, lossSample);
    }
  }
}
