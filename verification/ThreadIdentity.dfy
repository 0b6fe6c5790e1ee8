/** Threads are matched between a trace and a later run by their role (the
    signature) and their rank among the threads of that role in creation order
    (src/deadline_scheduler.cpp, generate_deadline_profile.py). */
module ThreadIdentity {
  type Signature = string

  type Identity = (Signature, nat)

  function CountOf(roles: seq<Signature>, s: Signature): nat {
    if roles == [] then 0
    else
      var n := |roles| - 1;
      CountOf(roles[..n], s) + (if roles[n] == s then 1 else 0)
  }

  /** Identity of the thread at position `i` of the creation order. */
  function IdentityAt(roles: seq<Signature>, i: nat): Identity
    requires i < |roles|
  {
    (roles[i], CountOf(roles[..i + 1], roles[i]))
  }

  lemma {:induction false} CountGrows(roles: seq<Signature>, i: nat, j: nat, s: Signature)
    requires i <= j <= |roles|
    ensures CountOf(roles[..i], s) <= CountOf(roles[..j], s)
    ensures i < j && roles[j - 1] == s ==> CountOf(roles[..i], s) < CountOf(roles[..j], s)
  {
    if i < j {
      assert roles[..j][..j - 1] == roles[..j - 1];
      CountGrows(roles, i, j - 1, s);
    }
  }

  /** No two threads share an identity. */
  lemma IdentitiesDiffer(roles: seq<Signature>, i: nat, j: nat)
    requires i < j < |roles|
    ensures IdentityAt(roles, i) != IdentityAt(roles, j)
  {
    CountGrows(roles, i + 1, j + 1, roles[j]);
  }

  /** The ranks of a role are 1, 2, ... up to the number of its threads. */
  lemma {:induction false} RanksAreDense(roles: seq<Signature>, s: Signature, k: nat) returns (i: nat)
    requires 1 <= k <= CountOf(roles, s)
    ensures i < |roles| && IdentityAt(roles, i) == (s, k)
  {
    var n := |roles| - 1;
    assert roles[..n + 1] == roles;
    if k == CountOf(roles, s) && roles[n] == s {
      i := n;
    } else {
      i := RanksAreDense(roles[..n], s, k);
      assert roles[..n][..i + 1] == roles[..i + 1];
    }
  }

  lemma RankBounds(roles: seq<Signature>, i: nat)
    requires i < |roles|
    ensures 1 <= IdentityAt(roles, i).1 <= CountOf(roles, roles[i])
  {
    CountGrows(roles, i, i + 1, roles[i]);
    CountGrows(roles, i + 1, |roles|, roles[i]);
    assert roles[..|roles|] == roles;
  }

  /** The identities present are exactly the ranks up to each role's count. */
  lemma IdentitiesPresent(roles: seq<Signature>, id: Identity)
    ensures (exists i :: 0 <= i < |roles| && IdentityAt(roles, i) == id) <==> 1 <= id.1 <= CountOf(roles, id.0)
  {
    if 1 <= id.1 <= CountOf(roles, id.0) {
      var i := RanksAreDense(roles, id.0, id.1);
    }
    forall i | 0 <= i < |roles| && IdentityAt(roles, i) == id ensures 1 <= id.1 <= CountOf(roles, id.0) {
      RankBounds(roles, i);
    }
  }
}
