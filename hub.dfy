/**
 * The hub's registry: for each storyboard, the set of connections
 * currently subscribed to it. The hub itself (its goroutine and its
 * channels) becomes the sequential trace kept by `Session.Service`;
 * this module gives the registry updates that `Register` and
 * `Unregister` make. A connection is the unit of registration, so two
 * tabs of one user are two members.
 */
module Hub {
  import opened Protocol

  type Registry = map<string, set<ConnId>>

  /** An arena entry exists only while it has a member. */
  predicate WellFormed(reg: Registry)
  {
    forall a :: a in reg ==> reg[a] != {}
  }

  function Members(reg: Registry, arena: string): (m: set<ConnId>)
    ensures WellFormed(reg) ==> (arena in reg <==> m != {})
  {
    if arena in reg then reg[arena] else {}
  }

  /** The registry after `Register(sub)`: a set add. */
  function Registered(reg: Registry, sub: Subscription): (r: Registry)
    ensures WellFormed(reg) ==> WellFormed(r)
    ensures sub.arena in r
    ensures Members(r, sub.arena) == Members(reg, sub.arena) + {sub.conn}
    ensures forall a :: a != sub.arena ==> Members(r, a) == Members(reg, a)
    ensures r.Keys == reg.Keys + {sub.arena}
  {
    reg[sub.arena := Members(reg, sub.arena) + {sub.conn}]
  }

  /**
   * The registry after `Unregister(sub)`: the connection leaves its
   * arena, the arena's entry goes with its last member, and a connection
   * that is not registered leaves the registry as it was.
   */
  function Unregistered(reg: Registry, sub: Subscription): (r: Registry)
    ensures WellFormed(reg) ==> WellFormed(r)
    ensures Members(r, sub.arena) == Members(reg, sub.arena) - {sub.conn}
    ensures forall a :: a != sub.arena ==> Members(r, a) == Members(reg, a)
    ensures sub.conn !in Members(reg, sub.arena) ==> r == reg
    ensures r.Keys <= reg.Keys
  {
    if sub.conn !in Members(reg, sub.arena) then reg
    else if reg[sub.arena] == {sub.conn} then reg - {sub.arena}
    else reg[sub.arena := reg[sub.arena] - {sub.conn}]
  }

  /** Registering a connection new to its arena and then unregistering it restores the registry. */
  lemma RegisterThenUnregister(reg: Registry, sub: Subscription)
    requires WellFormed(reg)
    requires sub.conn !in Members(reg, sub.arena)
    ensures Unregistered(Registered(reg, sub), sub) == reg
  {
    var r := Unregistered(Registered(reg, sub), sub);
    assert r.Keys == reg.Keys by {
      if sub.arena in reg {
        assert Members(r, sub.arena) == reg[sub.arena];
      }
    }
    forall a | a in reg ensures r[a] == reg[a] {
      assert Members(r, a) == Members(reg, a);
    }
  }
}
