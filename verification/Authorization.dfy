/** The authorization object, with the fields its lock sections update. */
module Authorization {
  import opened Options
  import P = Permits

  class McpAuthorization {
    var revision: nat
    var policy: P.Policy
    var registry: seq<P.Lease>
    var cancelled: set<nat>
    var nextId: nat

    /** This object inside a whole state of authorization, whose other parts the sections
        leave alone. */
    function In(a: P.Auth): P.Auth
      reads this
    {
      a.(revision := revision, policy := policy, registry := registry, cancelled := cancelled, nextId := nextId)
    }

    constructor ()
      ensures revision == P.Start().revision && policy == P.Start().policy
      ensures registry == [] && cancelled == {} && nextId == P.Start().nextId
    {
      revision, policy, registry, cancelled, nextId := 1, P.Policy(P.Settings(P.ReadOnly, None), 1), [], {}, 1;
    }

    /** First half of a settings change; `changed` says whether a revoke follows. */
    method UpdatePolicy(settings: P.Settings) returns (changed: bool)
      modifies this`policy
      ensures changed == (P.ValidSettings(settings) && old(policy.settings) != settings)
      ensures policy == if changed then P.Policy(settings, old(policy.revision) + 1) else old(policy)
      ensures forall a: P.Auth ::
                P.Change(old(In(a)), settings) == In(a).(changing := a.changing + if changed then 1 else 0)
    {
      if !P.ValidSettings(settings) || policy.settings == settings {
        return false;
      }
      policy := P.Policy(settings, policy.revision + 1);
      return true;
    }

    /** First half of a revoke. */
    method Advance() returns (r: nat)
      modifies this`revision
      ensures r == revision == old(revision) + 1
      ensures forall a: P.Auth ::
                P.Apply(old(In(a)), P.Advance(false)) == In(a).(cleaning := a.cleaning + {r})
    {
      revision := revision + 1;
      r := revision;
    }

    /** Second half: of the registered requests only those of its revision stay. */
    method CancelOthers(r: nat)
      modifies this`registry, this`cancelled
      ensures registry == P.Retained(old(registry), r)
      ensures cancelled == old(cancelled) + P.Ids(old(registry), r)
      ensures forall a: P.Auth :: r in a.cleaning && a.loading.None? ==>
                P.CleanUp(old(In(a)), r) == In(a).(cleaning := a.cleaning - {r})
    {
      var entries := registry;
      var kept: seq<P.Lease>, i := [], 0;
      while i < |entries|
        invariant 0 <= i <= |entries|
        invariant kept == P.Retained(entries[..i], r)
        invariant cancelled == old(cancelled) + P.Ids(entries[..i], r)
      {
        assert entries[..i + 1][..i] == entries[..i];
        assert P.Ids(entries[..i + 1], r) ==
               P.Ids(entries[..i], r) + (if entries[i].revision == r then {} else {entries[i].id}) by {
          assert entries[..i + 1] == entries[..i] + [entries[i]];
          forall x ensures x in P.Ids(entries[..i + 1], r) <==>
                           x in P.Ids(entries[..i], r) || (entries[i].revision != r && x == entries[i].id) {
            if entries[i].revision != r && x == entries[i].id {
              assert entries[i] in entries[..i + 1];
            }
          }
        }
        if entries[i].revision == r {
          kept := kept + [entries[i]];
        } else {
          cancelled := cancelled + {entries[i].id};
        }
        i := i + 1;
      }
      assert entries[..i] == entries;
      registry := kept;
    }

    /** `loaded` is the revision the caller read under the registry's lock. */
    method Register(loaded: nat, deadline: nat) returns (lease: P.Lease)
      modifies this`registry, this`cancelled, this`nextId
      ensures lease == P.Lease(loaded, old(nextId), deadline) && nextId == old(nextId) + 1
      ensures registry == if loaded == revision then old(registry) + [lease] else old(registry)
      ensures cancelled == if loaded == revision then old(cancelled) else old(cancelled) + {lease.id}
      ensures forall a: P.Auth :: a.loading == Some(loaded) ==>
                P.RegisterLease(old(In(a)), deadline) == In(a).(loading := None, issued := a.issued + {lease})
    {
      lease := P.Lease(loaded, nextId, deadline);
      nextId := nextId + 1;
      if loaded == revision {
        registry := registry + [lease];
      } else {
        cancelled := cancelled + {lease.id};
      }
    }
  }
}
