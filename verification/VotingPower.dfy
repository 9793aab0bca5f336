/** Validators, their voting power, and what a weighted quorum guarantees. */
module VotingPower {

  type Validator = nat

  /** A validator set with its cached total (types/validator_set.go keeps the same cache). */
  datatype ValidatorSet = ValidatorSet(powers: map<Validator, nat>, total: nat) {
    ghost predicate Valid() {
      total == Power(powers, powers.Keys)
    }

    /** The sum a vote set must reach for a +2/3 majority. */
    function Quorum(): nat {
      total * 2 / 3 + 1
    }
  }

  function Weight(powers: map<Validator, nat>, v: Validator): nat {
    if v in powers then powers[v] else 0
  }

  /** Combined power of a set of validators; outsiders weigh nothing. */
  ghost function Power(powers: map<Validator, nat>, s: set<Validator>): nat {
    if s == {} then 0 else
      var v :| v in s;
      Weight(powers, v) + Power(powers, s - {v})
  }

  lemma {:induction false} PowerWithout(powers: map<Validator, nat>, s: set<Validator>, v: Validator)
    requires v in s
    ensures Power(powers, s) == Weight(powers, v) + Power(powers, s - {v})
    decreases s
  {
    var w :| w in s && Power(powers, s) == Weight(powers, w) + Power(powers, s - {w});
    if w != v {
      PowerWithout(powers, s - {w}, v);
      PowerWithout(powers, s - {v}, w);
      assert s - {w} - {v} == s - {v} - {w};
    }
  }

  lemma PowerAdd(powers: map<Validator, nat>, s: set<Validator>, v: Validator)
    requires v !in s
    ensures Power(powers, s + {v}) == Power(powers, s) + Weight(powers, v)
  {
    PowerWithout(powers, s + {v}, v);
    assert s + {v} - {v} == s;
  }

  lemma {:induction false} PowerMonotone(powers: map<Validator, nat>, s: set<Validator>, t: set<Validator>)
    requires s <= t
    ensures Power(powers, s) <= Power(powers, t)
    decreases t
  {
    if t <= s {
      assert s == t;
    } else {
      var v :| v in t && v !in s;
      PowerWithout(powers, t, v);
      PowerMonotone(powers, s, t - {v});
    }
  }

  lemma {:induction false} PowerUnion(powers: map<Validator, nat>, s: set<Validator>, t: set<Validator>)
    ensures Power(powers, s + t) + Power(powers, s * t) == Power(powers, s) + Power(powers, t)
    decreases t
  {
    if t == {} {
      assert s + t == s && s * t == {};
    } else {
      var v :| v in t;
      var rest := t - {v};
      PowerUnion(powers, s, rest);
      PowerWithout(powers, t, v);
      if v in s {
        assert s + t == s + rest;
        assert s * t == s * rest + {v};
        PowerAdd(powers, s * rest, v);
      } else {
        assert s + t == s + rest + {v};
        assert s * t == s * rest;
        PowerAdd(powers, s + rest, v);
      }
    }
  }

  lemma {:induction false} PowerOfMembers(powers: map<Validator, nat>, s: set<Validator>)
    ensures Power(powers, s) == Power(powers, s * powers.Keys)
    decreases s
  {
    if s <= powers.Keys {
      assert s * powers.Keys == s;
    } else {
      var v :| v in s && v !in powers;
      PowerWithout(powers, s, v);
      PowerOfMembers(powers, s - {v});
      assert (s - {v}) * powers.Keys == s * powers.Keys;
    }
  }

  /** Signed by strictly more than two thirds of the total power. */
  ghost predicate IsQuorum(vals: ValidatorSet, s: set<Validator>) {
    3 * Power(vals.powers, s) > 2 * vals.total
  }

  /** Everyone outside `honest` together holds less than one third of the total power. */
  ghost predicate FaultyBelowThird(vals: ValidatorSet, honest: set<Validator>) {
    3 * Power(vals.powers, vals.powers.Keys - honest) < vals.total
  }

  /** The integer test `sum > total * 2 / 3` and `sum >= Quorum()` both mean "more than two thirds". */
  lemma ThresholdIsTwoThirds(vals: ValidatorSet, sum: nat)
    ensures sum > vals.total * 2 / 3 <==> 3 * sum > 2 * vals.total
    ensures sum >= vals.Quorum() <==> 3 * sum > 2 * vals.total
  {
  }

  lemma PowerAtMostTotal(vals: ValidatorSet, s: set<Validator>)
    requires vals.Valid()
    ensures Power(vals.powers, s) <= vals.total
  {
    PowerOfMembers(vals.powers, s);
    PowerMonotone(vals.powers, s * vals.powers.Keys, vals.powers.Keys);
  }

  /** Any two quorums share an honest member. */
  lemma QuorumsShareHonest(vals: ValidatorSet, honest: set<Validator>, q1: set<Validator>, q2: set<Validator>)
    returns (v: Validator)
    requires vals.Valid() && FaultyBelowThird(vals, honest)
    requires IsQuorum(vals, q1) && IsQuorum(vals, q2)
    ensures v in q1 && v in q2 && v in honest && v in vals.powers
  {
    var both := q1 * q2;
    PowerUnion(vals.powers, q1, q2);
    PowerAtMostTotal(vals, q1 + q2);
    v := HonestAboveThird(vals, honest, both);
  }

  /** A set holding more than one third of the power has an honest member. */
  lemma HonestAboveThird(vals: ValidatorSet, honest: set<Validator>, s: set<Validator>) returns (v: Validator)
    requires FaultyBelowThird(vals, honest)
    requires 3 * Power(vals.powers, s) >= vals.total
    ensures v in s && v in honest && v in vals.powers
  {
    var members := s * vals.powers.Keys;
    PowerOfMembers(vals.powers, s);
    if members <= vals.powers.Keys - honest {
      PowerMonotone(vals.powers, members, vals.powers.Keys - honest);
      assert false;
    }
    v :| v in members && v !in vals.powers.Keys - honest;
  }
}
