/** VoiceChatRegistrationManager: a companion's own lease table, proved to take the companion steps
    of the lease protocol and no others. */
module Companion {
  import opened GoText
  import opened Envelope
  import opened LeaseProtocol

  const ATTEMPTS := 3

  datatype Registering = TooMany | Failed | Registered(lease: string, superseded: Option<string>)

  /** The first answer among the attempts still to be made; None when each of them fails. */
  function FirstAnswer(answers: nat -> Option<string>, from: nat): Option<string>
    decreases ATTEMPTS - from
  {
    if from >= ATTEMPTS then None
    else if answers(from).Some? then answers(from)
    else FirstAnswer(answers, from + 1)
  }

  /** The companion asks again after each failure, three times in all. */
  method Retry(answers: nat -> Option<string>) returns (r: Option<string>)
    ensures r == FirstAnswer(answers, 0)
    ensures r.None? <==> forall i :: 0 <= i < 3 ==> answers(i).None?
    ensures r.Some? ==> exists i :: 0 <= i < 3 && answers(i) == r && forall j :: 0 <= j < i ==> answers(j).None?
  {
    for attempt := 0 to ATTEMPTS
      invariant forall i :: 0 <= i < attempt ==> answers(i).None?
      invariant FirstAnswer(answers, 0) == FirstAnswer(answers, attempt)
    {
      if answers(attempt).Some? {
        return answers(attempt);
      }
    }
    return None;
  }

  class Manager {
    const holder: Holder
    const maxTracked: nat
    var leases: map<UUID, string>

    constructor (holder: Holder, maxTracked: nat)
      ensures this.holder == holder && this.maxTracked == maxTracked && leases == map[]
    {
      this.holder, this.maxTracked := holder, maxTracked;
      leases := map[];
    }

    /** The table is this companion's part of the network state. */
    ghost predicate Agrees(n: Net)
      reads this
    {
      forall p :: (p in leases <==> (holder, p) in n.tracked) && (p in leases ==> leases[p] == n.tracked[(holder, p)])
    }

    predicate HasRoom(player: UUID)
      reads this
    {
      player in leases || |leases| < maxTracked
    }

    /** The moment a granted lease is taken over: whatever the network has come to by then, this is
        the protocol's read-answer step, and the lease it supersedes is given up. */
    method Adopt(player: UUID, lease: string, ghost n: Net) returns (superseded: Option<string>)
      requires Agrees(n) && Grant(player, holder, lease) in n.answers
      modifies this
      ensures leases == old(leases)[player := lease]
      ensures Possible(n, ReadAnswer(Grant(player, holder, lease)))
      ensures Agrees(CompanionStep(n, ReadAnswer(Grant(player, holder, lease))))
      ensures CompanionStep(n, ReadAnswer(Grant(player, holder, lease))).sent
        == if superseded.Some? then n.sent + {Delete(player, holder, superseded.value)} else n.sent
      ensures superseded.Some? <==> (holder, player) in n.tracked
    {
      superseded := if player in leases then Some(leases[player]) else None;
      leases := leases[player := lease];
    }

    /** registerBeforeUdp; answers(i) is what attempt i brings back, n the network when the one that
        counts is read. */
    method RegisterBeforeUdp(player: UUID, answers: nat -> Option<string>, ghost n: Net) returns (r: Registering)
      requires Agrees(n)
      requires FirstAnswer(answers, 0).Some? ==> Grant(player, holder, FirstAnswer(answers, 0).value) in n.answers
      modifies this
      ensures r.TooMany? <==> player !in old(leases) && |old(leases)| >= maxTracked
      ensures !r.Registered? ==> leases == old(leases)
      ensures !r.TooMany? ==> (r.Registered? <==> FirstAnswer(answers, 0).Some?)
      ensures r.Registered? ==>
        && FirstAnswer(answers, 0) == Some(r.lease)
        && var grant := Grant(player, holder, r.lease);
        && Possible(n, ReadAnswer(grant)) && Agrees(CompanionStep(n, ReadAnswer(grant)))
        && (r.superseded.Some? <==> (holder, player) in n.tracked)
        && (r.superseded.Some? ==> CompanionStep(n, ReadAnswer(grant)).sent == n.sent + {Delete(player, holder, r.superseded.value)})
    {
      if !HasRoom(player) {
        return TooMany;
      }
      var lease := Retry(answers);
      if lease.None? {
        return Failed;
      }
      var superseded := Adopt(player, lease.value, n);
      return Registered(lease.value, superseded);
    }

    /** unregister: the lease to delete at the gateway, if there is one. */
    method Leave(player: UUID, ghost n: Net) returns (r: Option<string>)
      requires Agrees(n)
      modifies this
      ensures r.None? <==> !Possible(n, Unregister(holder, player))
      ensures r.None? ==> leases == old(leases)
      ensures r.Some? ==>
        var after := CompanionStep(n, Unregister(holder, player));
        Agrees(after) && after.sent == n.sent + {Delete(player, holder, r.value)}
    {
      if player !in leases {
        return None;
      }
      r := Some(leases[player]);
      leases := leases - {player};
    }

    /** refresh: the lease to renew. The gateway answers with the same lease ID, so the entry stays. */
    method Renew(player: UUID, ghost n: Net) returns (r: Option<string>)
      requires Agrees(n)
      ensures r.None? <==> !Possible(n, SendRefresh(holder, player))
      ensures r.Some? ==>
        var after := CompanionStep(n, SendRefresh(holder, player));
        Agrees(after) && after.sent == n.sent + {Refresh(player, holder, r.value)}
    {
      return if player in leases then Some(leases[player]) else None;
    }
  }
}
