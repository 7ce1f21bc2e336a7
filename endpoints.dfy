/** MAVLink endpoints and the rules by which a router keeps its set of output
    endpoints (mavlink_proxy/AbstractRouter.py, both revisions). Endpoint.py
    itself is not part of this model: Endpoint is a value with structural
    equality carrying the fields and defaults its tests assert. The rules are
    stated once here, as functions on sets, and the router classes apply them
    to their fields. */
module Endpoints {
  import opened Base
  import opened Typedefs

  datatype Endpoint = Endpoint(
    name: string,
    owner: string,
    connectionType: EndpointType,
    place: string,
    argument: int,
    persistent: bool,
    protected: bool,
    enabled: bool)

  /** Endpoint(name, owner, connection_type, place, argument) with the
      keyword defaults persistent=False, protected=False, enabled=True. */
  function NewEndpoint(name: string, owner: string, connectionType: EndpointType,
                       place: string, argument: int): (e: Endpoint)
    ensures e.name == name && e.owner == owner && e.connectionType == connectionType
    ensures e.place == place && e.argument == argument
    ensures !e.persistent && !e.protected && e.enabled
  {
    Endpoint(name, owner, connectionType, place, argument, false, false, true)
  }

  function Names(s: set<Endpoint>): set<string>
  {
    set e | e in s :: e.name
  }

  /** No two endpoints of the set share a name. */
  predicate UniqueNames(s: set<Endpoint>)
  {
    forall a, b :: a in s && b in s && a.name == b.name ==> a == b
  }

  /** add_endpoint: the router's validator first, then an exact duplicate,
      then a name clash; only then is the endpoint inserted. */
  function Add(s: set<Endpoint>, e: Endpoint, accepts: Endpoint -> bool): (r: Result<set<Endpoint>>)
    ensures r.Ok? <==> accepts(e) && e.name !in Names(s)
    ensures !accepts(e) ==> r == Err(ValueError)
    ensures accepts(e) && e in s ==> r == Err(EndpointAlreadyExists)
    ensures accepts(e) && e !in s && e.name in Names(s) ==> r == Err(DuplicateEndpointName)
    ensures r.Ok? ==> r.value == s + {e}
  {
    if !accepts(e) then Err(ValueError)
    else if e in s then Err(EndpointAlreadyExists)
    else if e.name in Names(s) then Err(DuplicateEndpointName)
    else Ok(s + {e})
  }

  /** remove_endpoint: an absent endpoint is an error, a present one goes. */
  function Remove(s: set<Endpoint>, e: Endpoint): (r: Result<set<Endpoint>>)
    ensures r.Ok? <==> e in s
    ensures r.Err? ==> r.error == EndpointDontExist
    ensures r.Ok? ==> e !in r.value && r.value + {e} == s
  {
    if e !in s then Err(EndpointDontExist) else Ok(s - {e})
  }

  /** A successful add keeps names unique. */
  lemma AddKeepsNamesUnique(s: set<Endpoint>, e: Endpoint, accepts: Endpoint -> bool)
    requires UniqueNames(s) && Add(s, e, accepts).Ok?
    ensures UniqueNames(Add(s, e, accepts).value)
  {
    forall a | a in s ensures a.name != e.name {
      assert a.name in Names(s);
    }
  }

  /** A successful remove keeps names unique. */
  lemma RemoveKeepsNamesUnique(s: set<Endpoint>, e: Endpoint)
    requires UniqueNames(s) && Remove(s, e).Ok?
    ensures UniqueNames(Remove(s, e).value)
  {
  }

  /** Adding then removing the same endpoint gives the set back. */
  lemma AddRemoveInverse(s: set<Endpoint>, e: Endpoint, accepts: Endpoint -> bool)
    requires Add(s, e, accepts).Ok?
    ensures Remove(Add(s, e, accepts).value, e) == Ok(s)
  {
    assert e.name !in Names(s);
    assert forall x :: x in s ==> x.name in Names(s);
    assert (s + {e}) - {e} == s;
  }

  lemma NamesAdd(s: set<Endpoint>, e: Endpoint)
    ensures Names(s + {e}) == Names(s) + {e.name}
  {
    forall n | n in Names(s) ensures n in Names(s + {e}) {
      var x :| x in s && x.name == n;
      assert x in s + {e};
    }
    assert e in s + {e};
  }

  /** The first k entries of a list, as a set. */
  function Prefix(es: seq<Endpoint>, k: int): set<Endpoint>
    requires 0 <= k <= |es|
  {
    set i | 0 <= i < k :: es[i]
  }

  /** Where a loop over endpoints stopped: the set it left, and the error
      that stopped it, if any. */
  datatype Progress = Progress(endpoints: set<Endpoint>, failure: Option<Error>)

  /** Adding endpoints one at a time, in the given order, stopping at the
      first error and keeping every earlier insertion. */
  function AddAll(s: set<Endpoint>, es: seq<Endpoint>, accepts: Endpoint -> bool): (p: Progress)
    decreases |es|
  {
    if es == [] then Progress(s, None)
    else match Add(s, es[0], accepts)
      case Err(err) => Progress(s, Some(err))
      case Ok(s') => AddAll(s', es[1..], accepts)
  }

  /** Removing endpoints one at a time, stopping at the first error. */
  function RemoveAll(s: set<Endpoint>, es: seq<Endpoint>): (p: Progress)
    decreases |es|
  {
    if es == [] then Progress(s, None)
    else match Remove(s, es[0])
      case Err(err) => Progress(s, Some(err))
      case Ok(s') => RemoveAll(s', es[1..])
  }

  /** No rollback: the set a batch add leaves is the start set plus the
      endpoints before the one that failed (all of them on success), and
      never more. */
  lemma {:induction false} AddAllApplied(s: set<Endpoint>, es: seq<Endpoint>, accepts: Endpoint -> bool)
    ensures exists k :: 0 <= k <= |es| && AddAll(s, es, accepts).endpoints == s + Prefix(es, k)
    ensures AddAll(s, es, accepts).failure.None? ==>
      AddAll(s, es, accepts).endpoints == s + Prefix(es, |es|)
    ensures s <= AddAll(s, es, accepts).endpoints
    decreases |es|
  {
    assert Prefix(es, 0) == {};
    if es != [] {
      match Add(s, es[0], accepts)
      case Err(_) =>
      case Ok(s') =>
        AddAllApplied(s', es[1..], accepts);
        var k' :| 0 <= k' <= |es[1..]| && AddAll(s', es[1..], accepts).endpoints == s' + Prefix(es[1..], k');
        PrefixSetShift(es, k');
        if AddAll(s, es, accepts).failure.None? {
          PrefixSetShift(es, |es| - 1);
        }
    }
  }

  /** The first k + 1 entries of es as a set, written through es[1..]. */
  lemma PrefixSetShift(es: seq<Endpoint>, k: int)
    requires |es| > 0 && 0 <= k <= |es| - 1
    ensures Prefix(es, k + 1) == {es[0]} + Prefix(es[1..], k)
  {
    var a := Prefix(es, k + 1);
    var b := {es[0]} + Prefix(es[1..], k);
    forall x | x in a ensures x in b {
      var i :| 0 <= i < k + 1 && es[i] == x;
      if i > 0 { assert es[1..][i - 1] == x; }
    }
    forall x | x in b ensures x in a {
      if x != es[0] {
        var i :| 0 <= i < k && es[1..][i] == x;
        assert es[i + 1] == x;
      }
    }
  }

  /** The entries of a list have distinct names. */
  predicate DistinctNames(es: seq<Endpoint>)
  {
    forall i, j :: 0 <= i < j < |es| ==> es[i].name != es[j].name
  }

  /** Clearing and then adding accepted, distinctly named endpoints leaves
      exactly those endpoints (more generally: adding them to a set whose
      names they avoid succeeds and adds exactly them). */
  lemma {:induction false} AddAllFresh(s: set<Endpoint>, es: seq<Endpoint>, accepts: Endpoint -> bool)
    requires DistinctNames(es)
    requires forall i :: 0 <= i < |es| ==> accepts(es[i]) && es[i].name !in Names(s)
    ensures AddAll(s, es, accepts) == Progress(s + Prefix(es, |es|), None)
    decreases |es|
  {
    assert Prefix(es, 0) == {};
    if es != [] {
      var s' := s + {es[0]};
      assert Add(s, es[0], accepts) == Ok(s');
      NamesAdd(s, es[0]);
      forall i | 0 <= i < |es[1..]| ensures es[1..][i].name !in Names(s') {
        assert es[1..][i] == es[i + 1];
      }
      AddAllFresh(s', es[1..], accepts);
      PrefixSetShift(es, |es| - 1);
    }
  }

  /** The instance of AddAllFresh that the router tests rely on. */
  lemma ClearThenAddAll(es: seq<Endpoint>, accepts: Endpoint -> bool)
    requires DistinctNames(es)
    requires forall i :: 0 <= i < |es| ==> accepts(es[i])
    ensures AddAll({}, es, accepts) == Progress(Prefix(es, |es|), None)
  {
    AddAllFresh({}, es, accepts);
    assert {} + Prefix(es, |es|) == Prefix(es, |es|);
  }

  /** Whatever a batch add inserts before it stops, names stay unique. */
  lemma {:induction false} AddAllKeepsNamesUnique(s: set<Endpoint>, es: seq<Endpoint>, accepts: Endpoint -> bool)
    requires UniqueNames(s)
    ensures UniqueNames(AddAll(s, es, accepts).endpoints)
    decreases |es|
  {
    if es != [] {
      match Add(s, es[0], accepts)
      case Err(_) =>
      case Ok(s') =>
        AddKeepsNamesUnique(s, es[0], accepts);
        AddAllKeepsNamesUnique(s', es[1..], accepts);
    }
  }

  /** A batch remove takes away only endpoints that were listed. */
  lemma {:induction false} RemoveAllRemovesOnlyListed(s: set<Endpoint>, es: seq<Endpoint>)
    ensures RemoveAll(s, es).endpoints <= s
    ensures forall e :: e in s && e !in es ==> e in RemoveAll(s, es).endpoints
    decreases |es|
  {
    if es != [] {
      match Remove(s, es[0])
      case Err(_) =>
      case Ok(s') =>
        RemoveAllRemovesOnlyListed(s', es[1..]);
        forall e | e in s && e !in es ensures e in RemoveAll(s, es).endpoints {
          assert e != es[0];
          assert e !in es[1..];
        }
    }
  }

  /** The set a router may hold: unique names, each endpoint accepted by
      the router's validator. Every add keeps a router's set admissible. */
  predicate Admissible(s: set<Endpoint>, accepts: Endpoint -> bool)
  {
    UniqueNames(s) && forall e :: e in s ==> accepts(e)
  }

  /** Re-adding an admissible set to an empty one, in any iteration order,
      succeeds and rebuilds exactly that set. */
  lemma ReAddAll(s: set<Endpoint>, order: seq<Endpoint>, accepts: Endpoint -> bool)
    requires ListsExactly(order, s) && Admissible(s, accepts)
    ensures AddAll({}, order, accepts) == Progress(s, None)
  {
    forall i, j | 0 <= i < j < |order| ensures order[i].name != order[j].name {
      assert order[i] in s && order[j] in s && order[i] != order[j];
    }
    ClearThenAddAll(order, accepts);
    forall e | e in s ensures e in Prefix(order, |order|) {
      var i :| 0 <= i < |order| && order[i] == e;
    }
  }

  /** A batch add of one endpoint is that endpoint's add. */
  lemma AddAllOne(s: set<Endpoint>, e: Endpoint, accepts: Endpoint -> bool)
    ensures Add(s, e, accepts).Ok? ==> AddAll(s, [e], accepts) == Progress(Add(s, e, accepts).value, None)
    ensures Add(s, e, accepts).Err? ==> AddAll(s, [e], accepts) == Progress(s, Some(Add(s, e, accepts).error))
  {
    assert [e][1..] == [];
  }

  /** Adding endpoints one at a time where a refused endpoint is only
      logged: it is skipped and the loop goes on with the next one. */
  function AddEach(s: set<Endpoint>, es: seq<Endpoint>, accepts: Endpoint -> bool): set<Endpoint>
    decreases |es|
  {
    if es == [] then s
    else match Add(s, es[0], accepts)
      case Err(_) => AddEach(s, es[1..], accepts)
      case Ok(s') => AddEach(s', es[1..], accepts)
  }

  /** Skipping failures changes nothing when no add fails. */
  lemma {:induction false} AddEachAgreesWithAddAll(s: set<Endpoint>, es: seq<Endpoint>, accepts: Endpoint -> bool)
    requires AddAll(s, es, accepts).failure.None?
    ensures AddEach(s, es, accepts) == AddAll(s, es, accepts).endpoints
    decreases |es|
  {
    if es != [] {
      match Add(s, es[0], accepts)
      case Err(_) =>
      case Ok(s') => AddEachAgreesWithAddAll(s', es[1..], accepts);
    }
  }

  /** A load that skips failures keeps what was there, adds only listed
      endpoints, and keeps the set admissible. */
  lemma {:induction false} AddEachBounds(s: set<Endpoint>, es: seq<Endpoint>, accepts: Endpoint -> bool)
    requires Admissible(s, accepts)
    ensures s <= AddEach(s, es, accepts)
    ensures forall e :: e in AddEach(s, es, accepts) && e !in s ==> e in es
    ensures Admissible(AddEach(s, es, accepts), accepts)
    decreases |es|
  {
    if es != [] {
      match Add(s, es[0], accepts)
      case Err(_) =>
        AddEachBounds(s, es[1..], accepts);
        forall e | e in AddEach(s, es, accepts) && e !in s ensures e in es {
          assert e in es[1..];
        }
      case Ok(s') =>
        AddKeepsNamesUnique(s, es[0], accepts);
        AddEachBounds(s', es[1..], accepts);
        forall e | e in AddEach(s, es, accepts) && e !in s ensures e in es {
          if e != es[0] { assert e in es[1..]; }
        }
    }
  }

  /** Loading a saved admissible set into an empty router, in any order,
      rebuilds exactly that set. */
  lemma LoadRestoresSaved(s: set<Endpoint>, order: seq<Endpoint>, accepts: Endpoint -> bool)
    requires ListsExactly(order, s) && Admissible(s, accepts)
    ensures AddEach({}, order, accepts) == s
  {
    ReAddAll(s, order, accepts);
    AddEachAgreesWithAddAll({}, order, accepts);
  }
}
