/** Which replica a slot is assigned to (webhook/ownership.go).  The hash is a parameter:
    nothing here depends on which one it is. */
module Rendezvous {
  import opened Prelude
  import opened Texts

  type Score = (string, nat) -> nat

  /** `a` comes before `b` for slot `h`: a greater score, or the greater id at equal scores. */
  predicate Beats(score: Score, h: nat, a: string, b: string) {
    score(a, h) > score(b, h) || (score(a, h) == score(b, h) && Before(b, a))
  }

  lemma BeatsIsTotal(score: Score, h: nat, a: string, b: string)
    ensures a == b || Beats(score, h, a, b) || Beats(score, h, b, a)
    ensures !(Beats(score, h, a, b) && Beats(score, h, b, a)) && !Beats(score, h, a, a)
  {
    BeforeIsTotal(a, b);
    NotBeforeItself(a);
    if Before(a, b) {
      BeforeIsOneWay(a, b);
    }
  }

  lemma BeatsIsTransitive(score: Score, h: nat, a: string, b: string, c: string)
    requires Beats(score, h, a, b) && Beats(score, h, b, c)
    ensures Beats(score, h, a, c)
  {
    if Before(c, b) && Before(b, a) {
      BeforeIsTransitive(c, b, a);
    }
  }

  /** The member that no other beats. */
  ghost predicate Owns(score: Score, h: nat, members: set<string>, owner: string) {
    owner in members && forall m :: m in members && m != owner ==> Beats(score, h, owner, m)
  }

  lemma OwnerIsUnique(score: Score, h: nat, members: set<string>, a: string, b: string)
    requires Owns(score, h, members, a) && Owns(score, h, members, b)
    ensures a == b
  {
    BeatsIsTotal(score, h, a, b);
  }

  function Members(members: seq<string>): set<string> {
    set m | m in members
  }

  /** `HRWOwner`: the members' order and repetitions do not matter. */
  method HrwOwner(score: Score, members: seq<string>, h: nat) returns (owner: Option<string>)
    ensures owner.None? <==> members == []
    ensures owner.Some? ==> Owns(score, h, Members(members), owner.value)
    ensures owner.Some? ==>
              && owner.value in members
              && (forall m :: m in members ==> score(m, h) <= score(owner.value, h))
              && (forall m :: m in members && score(m, h) == score(owner.value, h) ==>
                    m == owner.value || Before(m, owner.value))
  {
    owner := None;
    var bestScore := 0;
    for i := 0 to |members|
      invariant owner.None? <==> i == 0
      invariant owner.Some? ==> bestScore == score(owner.value, h) && Owns(score, h, Members(members[..i]), owner.value)
    {
      var m := members[i];
      var s := score(m, h);
      assert Members(members[..i + 1]) == Members(members[..i]) + {m};
      if owner.None? {
        owner, bestScore := Some(m), s;
      } else {
        BeatsIsTotal(score, h, m, owner.value);
        if s > bestScore || (s == bestScore && Before(owner.value, m)) {
          NewOwner(score, h, Members(members[..i]), owner.value, m);
          owner, bestScore := Some(m), s;
        }
      }
    }
    assert members[..|members|] == members;
    assert forall m :: m in members ==> m in Members(members);
  }

  /** A member that beats the owner is the owner once it joins. */
  lemma NewOwner(score: Score, h: nat, members: set<string>, owner: string, joiner: string)
    requires Owns(score, h, members, owner) && Beats(score, h, joiner, owner)
    ensures Owns(score, h, members + {joiner}, joiner)
  {
    forall m | m in members && m != joiner ensures Beats(score, h, joiner, m) {
      if m != owner {
        BeatsIsTransitive(score, h, joiner, owner, m);
      }
    }
  }

  /** When a member joins, a slot stays where it was or moves to the joiner. */
  lemma JoinMovesOnlyToJoiner(score: Score, h: nat, members: set<string>, joiner: string, before: string, after: string)
    requires Owns(score, h, members, before) && Owns(score, h, members + {joiner}, after)
    ensures after == before || after == joiner
  {
    if after != joiner {
      assert Owns(score, h, members, after);
      OwnerIsUnique(score, h, members, before, after);
    }
  }

  /** When a member leaves, only its own slots move. */
  lemma LeaveMovesOnlyItsSlots(score: Score, h: nat, members: set<string>, leaver: string, before: string,
      after: string)
    requires Owns(score, h, members, before) && Owns(score, h, members - {leaver}, after)
    ensures before == leaver || after == before
  {
    if before != leaver {
      assert Owns(score, h, members - {leaver}, before);
      OwnerIsUnique(score, h, members - {leaver}, before, after);
    }
  }

  /** Every slot has an owner while anyone is live. */
  lemma {:induction false} SomeoneOwns(score: Score, h: nat, members: set<string>) returns (owner: string)
    requires members != {}
    ensures Owns(score, h, members, owner)
    decreases members
  {
    var m :| m in members;
    var rest := members - {m};
    owner := m;
    assert members == rest + {m};
    if rest != {} {
      var best := SomeoneOwns(score, h, rest);
      BeatsIsTotal(score, h, m, best);
      if Beats(score, h, m, best) {
        NewOwner(score, h, rest, best, m);
      } else {
        owner := best;
      }
    }
  }

  // ---- the slots of one replica ----

  ghost function Targets(score: Score, me: string, members: set<string>, slots: set<nat>): set<nat> {
    set h | h in slots && Owns(score, h, members, me)
  }

  function Slots(slots: seq<nat>): set<nat> {
    set h | h in slots
  }

  /** `TargetedSlots`. */
  method TargetedSlots(score: Score, me: string, members: seq<string>, slots: seq<nat>) returns (out: set<nat>)
    ensures out == Targets(score, me, Members(members), Slots(slots))
  {
    out := {};
    for i := 0 to |slots|
      invariant out == Targets(score, me, Members(members), Slots(slots[..i]))
    {
      var h := slots[i];
      assert Slots(slots[..i + 1]) == Slots(slots[..i]) + {h};
      var owner := HrwOwner(score, members, h);
      if owner.Some? {
        if owner.value == me {
          out := out + {h};
        } else if Owns(score, h, Members(members), me) {
          OwnerIsUnique(score, h, Members(members), me, owner.value);
        }
      }
    }
    assert slots[..|slots|] == slots;
  }

  /** The replicas' slots are disjoint. */
  lemma TargetsAreDisjoint(score: Score, a: string, b: string, members: set<string>, slots: set<nat>)
    requires a != b
    ensures Targets(score, a, members, slots) !! Targets(score, b, members, slots)
  {
    forall h | h in Targets(score, a, members, slots) ensures h !in Targets(score, b, members, slots) {
      if h in Targets(score, b, members, slots) {
        OwnerIsUnique(score, h, members, a, b);
      }
    }
  }

  /** Together they are all the slots. */
  lemma TargetsCover(score: Score, members: set<string>, slots: set<nat>, h: nat) returns (me: string)
    requires members != {} && h in slots
    ensures me in members && h in Targets(score, me, members, slots)
  {
    me := SomeoneOwns(score, h, members);
  }

  /** `OwnedSlots`: what is both targeted and held, in rising order. */
  method OwnedSlots(targeted: set<nat>, held: set<nat>) returns (out: seq<nat>)
    ensures forall h :: h in out <==> h in targeted && h in held
    ensures forall i, j :: 0 <= i < j < |out| ==> out[i] < out[j]
  {
    out := [];
    var left := targeted;
    while left != {}
      invariant left <= targeted
      invariant forall h :: h in out <==> h in targeted - left && h in held
      invariant forall i, j :: 0 <= i < j < |out| ==> out[i] < out[j]
      decreases |left|
    {
      var h :| h in left;
      if h in held {
        out := InsertSlot(out, h);
      }
      left := left - {h};
    }
  }

  method InsertSlot(out: seq<nat>, h: nat) returns (r: seq<nat>)
    requires h !in out && forall i, j :: 0 <= i < j < |out| ==> out[i] < out[j]
    ensures forall k :: k in r <==> k in out || k == h
    ensures forall i, j :: 0 <= i < j < |r| ==> r[i] < r[j]
  {
    var i := 0;
    while i < |out| && out[i] < h
      invariant 0 <= i <= |out| && forall k :: 0 <= k < i ==> out[k] < h
    {
      i := i + 1;
    }
    r := out[..i] + [h] + out[i..];
    assert out == out[..i] + out[i..];
    assert i < |out| ==> out[i] != h;
  }
}
