/** The scheme registry: URI schemes mapped to interface classes, filled by
    registration and, on demand, from installed entry points. */
module Registry {
  import opened Results
  import Text

  /** A class or factory that can be registered; `subclassesInterface` is the
      answer `issubclass(handler, Interface)` gives. */
  datatype Handler = Handler(name: string, subclassesInterface: bool)

  /** An installed entry point of the `sioba.interfaces` group. */
  datatype EntryPoint = EntryPoint(name: string, target: Handler)

  /** The registry after registering `h` for `schemes`, one scheme at a time:
      the first scheme already present (after lower-casing) raises `KeyError`,
      keeping the schemes registered before it. */
  function RegisterAll(m: map<string, Handler>, schemes: seq<string>, h: Handler): (r: (map<string, Handler>, Outcome))
    ensures r.1 == Pass || r.1 == Fail(KeyError)
    ensures m.Keys <= r.0.Keys && forall k | k in m :: r.0[k] == m[k]
    decreases |schemes|
  {
    if schemes == [] then (m, Pass)
    else
      var l := Text.Lower(schemes[0]);
      if l in m then (m, Fail(KeyError))
      else RegisterAll(m[l := h], schemes[1..], h)
  }

  /** Some scheme clashes with the registry or with an earlier scheme of the same call. */
  predicate Clashes(m: map<string, Handler>, schemes: seq<string>)
  {
    exists i | 0 <= i < |schemes| ::
      Text.Lower(schemes[i]) in m || exists j | 0 <= j < i :: Text.Lower(schemes[j]) == Text.Lower(schemes[i])
  }

  /** A clash in a call is a clash of its first scheme, or a clash of the rest
      against the registry that already holds the first. */
  lemma ClashesStep(m: map<string, Handler>, schemes: seq<string>, h: Handler)
    requires schemes != [] && Text.Lower(schemes[0]) !in m
    ensures Clashes(m, schemes) <==> Clashes(m[Text.Lower(schemes[0]) := h], schemes[1..])
  {
    var l := Text.Lower(schemes[0]);
    var m' := m[l := h];
    var rest := schemes[1..];
    if Clashes(m', rest) {
      var i :| 0 <= i < |rest| && (Text.Lower(rest[i]) in m'
        || exists j | 0 <= j < i :: Text.Lower(rest[j]) == Text.Lower(rest[i]));
      if Text.Lower(rest[i]) == l {
        assert Text.Lower(schemes[0]) == Text.Lower(schemes[i + 1]);
      } else if Text.Lower(rest[i]) in m {
        assert Text.Lower(schemes[i + 1]) in m;
      } else {
        var j :| 0 <= j < i && Text.Lower(rest[j]) == Text.Lower(rest[i]);
        assert Text.Lower(schemes[j + 1]) == Text.Lower(schemes[i + 1]);
      }
    }
    if Clashes(m, schemes) {
      var i :| 0 <= i < |schemes| && (Text.Lower(schemes[i]) in m
        || exists j | 0 <= j < i :: Text.Lower(schemes[j]) == Text.Lower(schemes[i]));
      assert i > 0;
      if Text.Lower(schemes[i]) in m {
        assert Text.Lower(rest[i - 1]) in m';
      } else {
        var j :| 0 <= j < i && Text.Lower(schemes[j]) == Text.Lower(schemes[i]);
        if j == 0 {
          assert Text.Lower(rest[i - 1]) in m';
        } else {
          assert Text.Lower(rest[j - 1]) == Text.Lower(rest[i - 1]);
        }
      }
    }
  }

  /** Registration raises `KeyError` exactly on a clash. */
  lemma {:induction false} RegisterAllFails(m: map<string, Handler>, schemes: seq<string>, h: Handler)
    ensures RegisterAll(m, schemes, h).1 == Fail(KeyError) <==> Clashes(m, schemes)
    decreases |schemes|
  {
    if schemes != [] {
      var l := Text.Lower(schemes[0]);
      if l !in m {
        ClashesStep(m, schemes, h);
        RegisterAllFails(m[l := h], schemes[1..], h);
      }
    }
  }

  function LowerAll(schemes: seq<string>): set<string>
  {
    set s | s in schemes :: Text.Lower(s)
  }

  /** A registration that succeeds adds exactly the lower-cased schemes, all
      mapped to the handler; the entries already there stay as they were. */
  lemma {:induction false} RegisterAllSucceeds(m: map<string, Handler>, schemes: seq<string>, h: Handler)
    requires RegisterAll(m, schemes, h).1 == Pass
    ensures RegisterAll(m, schemes, h).0.Keys == m.Keys + LowerAll(schemes)
    ensures forall k | k in LowerAll(schemes) :: RegisterAll(m, schemes, h).0[k] == h
    decreases |schemes|
  {
    if schemes != [] {
      var l := Text.Lower(schemes[0]);
      RegisterAllSucceeds(m[l := h], schemes[1..], h);
      assert LowerAll(schemes) == {l} + LowerAll(schemes[1..]) by {
        assert forall s | s in schemes :: s == schemes[0] || s in schemes[1..];
        assert forall s | s in schemes[1..] :: s in schemes;
      }
    }
  }

  /** `list_interfaces`: the lower-cased names of the installed entry points. */
  function ListInterfaces(eps: seq<EntryPoint>): (r: seq<string>)
    ensures |r| == |eps|
    ensures forall i | 0 <= i < |eps| :: r[i] == Text.Lower(eps[i].name)
  {
    if eps == [] then [] else [Text.Lower(eps[0].name)] + ListInterfaces(eps[1..])
  }

  /** The first entry point whose lower-cased name is `scheme`. */
  function FirstMatch(eps: seq<EntryPoint>, scheme: string): (r: Option<nat>)
    ensures r.Some? ==> r.value < |eps| && Text.Lower(eps[r.value].name) == scheme
    ensures r.Some? ==> forall j | 0 <= j < r.value :: Text.Lower(eps[j].name) != scheme
    ensures r.None? ==> forall j | 0 <= j < |eps| :: Text.Lower(eps[j].name) != scheme
  {
    if eps == [] then None
    else if Text.Lower(eps[0].name) == scheme then Some(0)
    else
      match FirstMatch(eps[1..], scheme)
      case None => None
      case Some(i) => Some(i + 1)
  }

  /** `init_interface`'s choice of handler for a parsed scheme, and the registry
      afterwards: a registered scheme wins; otherwise the first entry point of that
      name is loaded, checked to subclass `Interface` and cached. */
  function Resolve(m: map<string, Handler>, eps: seq<EntryPoint>, scheme: string)
    : (r: (Result<Handler>, map<string, Handler>))
    ensures r.0.Err? ==> r.1 == m
    ensures r.0.Ok? ==> r.1 == m[Text.Lower(scheme) := r.0.value]
    ensures Text.Lower(scheme) in m ==> r == (Ok(m[Text.Lower(scheme)]), m)
    ensures Text.Lower(scheme) !in m && FirstMatch(eps, Text.Lower(scheme)).Some? ==>
      var t := eps[FirstMatch(eps, Text.Lower(scheme)).value].target;
      r.0 == if t.subclassesInterface then Ok(t) else Err(TypeError)
  {
    var s := Text.Lower(scheme);
    if s in m then (Ok(m[s]), m)
    else
      match FirstMatch(eps, s)
      case None => (Err(ValueError), m)
      case Some(i) =>
        if eps[i].target.subclassesInterface then (Ok(eps[i].target), m[s := eps[i].target])
        else (Err(TypeError), m)
  }

  /** The scheme is matched without regard to letter case. */
  lemma ResolveIgnoresCase(m: map<string, Handler>, eps: seq<EntryPoint>, scheme: string)
    ensures Resolve(m, eps, scheme) == Resolve(m, eps, Text.Lower(scheme))
  {
    Text.LowerIdempotent(scheme);
  }

  /** An unknown scheme raises `ValueError` exactly when no entry point has its name. */
  lemma ResolveUnknown(m: map<string, Handler>, eps: seq<EntryPoint>, scheme: string)
    ensures Resolve(m, eps, scheme).0 == Err(ValueError) <==>
      Text.Lower(scheme) !in m && Text.Lower(scheme) !in ListInterfaces(eps)
  {
    var s := Text.Lower(scheme);
    var l := ListInterfaces(eps);
    if s !in m && FirstMatch(eps, s).None? {
      assert forall k | 0 <= k < |l| :: l[k] != s;
    }
    if s in l {
      var k :| 0 <= k < |l| && l[k] == s;
      assert Text.Lower(eps[k].name) == s;
    }
  }

  /** A scheme that resolved is served from the registry from then on: asking again
      gives the same handler and changes nothing. */
  lemma ResolveCaches(m: map<string, Handler>, eps: seq<EntryPoint>, scheme: string)
    requires Resolve(m, eps, scheme).0.Ok?
    ensures var (h, m') := Resolve(m, eps, scheme); Resolve(m', eps, scheme) == (h, m')
  {
  }

  /** A handler that was loaded from an entry point subclasses `Interface` and is
      the target of the first entry point of that name, which is cached. */
  lemma ResolveLoadsInterfacesOnly(m: map<string, Handler>, eps: seq<EntryPoint>, scheme: string)
    requires Text.Lower(scheme) !in m && Resolve(m, eps, scheme).0.Ok?
    ensures Resolve(m, eps, scheme).0.value.subclassesInterface
    ensures Resolve(m, eps, scheme).0.value in (set e | e in eps :: e.target)
    ensures FirstMatch(eps, Text.Lower(scheme)).Some?
    ensures Resolve(m, eps, scheme).0.value == eps[FirstMatch(eps, Text.Lower(scheme)).value].target
    ensures Resolve(m, eps, scheme).1 == m[Text.Lower(scheme) := eps[FirstMatch(eps, Text.Lower(scheme)).value].target]
  {
    var i := FirstMatch(eps, Text.Lower(scheme)).value;
    assert eps[i] in eps;
  }

  /** Scheme `k` clashes with the registry or with an earlier scheme of the same call. */
  predicate ClashAt(m: map<string, Handler>, schemes: seq<string>, k: int)
    requires 0 <= k < |schemes|
  {
    Text.Lower(schemes[k]) in m || exists j | 0 <= j < k :: Text.Lower(schemes[j]) == Text.Lower(schemes[k])
  }

  /** Registering the first scheme keeps a later clash a clash of the rest. */
  lemma ClashAtStep(m: map<string, Handler>, schemes: seq<string>, h: Handler, k: nat)
    requires 0 < k < |schemes| && ClashAt(m, schemes, k)
    ensures ClashAt(m[Text.Lower(schemes[0]) := h], schemes[1..], k - 1)
  {
    var rest := schemes[1..];
    assert rest[k - 1] == schemes[k];
    if Text.Lower(schemes[k]) !in m && Text.Lower(schemes[k]) != Text.Lower(schemes[0]) {
      var j :| 0 <= j < k && Text.Lower(schemes[j]) == Text.Lower(schemes[k]);
      assert rest[j - 1] == schemes[j];
    }
  }

  /** The lower-cased schemes of a prefix, one scheme at a time. */
  lemma LowerAllCons(schemes: seq<string>, k: nat)
    requires 0 < k <= |schemes|
    ensures LowerAll(schemes[..k]) == {Text.Lower(schemes[0])} + LowerAll(schemes[1..][..k - 1])
  {
    assert schemes[..k] == [schemes[0]] + schemes[1..][..k - 1];
    assert forall s | s in schemes[..k] :: s == schemes[0] || s in schemes[1..][..k - 1];
  }

  /** Adding one key and then a set of keys, all mapped to `h`, adds their union. */
  lemma AddAll(m: map<string, Handler>, l: string, keys: set<string>, h: Handler)
    ensures m[l := h] + (map s | s in keys :: h) == m + (map s | s in {l} + keys :: h)
  {
  }

  /** A registration that fails stops at the first clashing scheme: the schemes
      before it stay registered to the handler, and `KeyError` is raised. */
  lemma {:induction false} RegisterAllStopsAtClash(m: map<string, Handler>, schemes: seq<string>, h: Handler, k: nat)
    requires k < |schemes| && !Clashes(m, schemes[..k]) && ClashAt(m, schemes, k)
    ensures RegisterAll(m, schemes, h) == (m + (map s | s in LowerAll(schemes[..k]) :: h), Fail(KeyError))
    decreases k
  {
    if k == 0 {
      assert LowerAll(schemes[..0]) == {};
      assert m + (map s | s in LowerAll(schemes[..0]) :: h) == m;
    } else {
      var l := Text.Lower(schemes[0]);
      assert l !in m by {
        assert schemes[..k][0] == schemes[0];
        assert !(Text.Lower(schemes[..k][0]) in m);
      }
      ClashesStep(m, schemes[..k], h);
      assert schemes[..k][1..] == schemes[1..][..k - 1];
      ClashAtStep(m, schemes, h, k);
      RegisterAllStopsAtClash(m[l := h], schemes[1..], h, k - 1);
      LowerAllCons(schemes, k);
      AddAll(m, l, LowerAll(schemes[1..][..k - 1]), h);
    }
  }

  /** After a successful registration, every registered scheme, in any letter case,
      resolves to the registered handler whatever entry points are installed. */
  lemma RegisterThenResolve(m: map<string, Handler>, schemes: seq<string>, h: Handler,
                            eps: seq<EntryPoint>, i: nat, scheme: string)
    requires RegisterAll(m, schemes, h).1 == Pass
    requires i < |schemes| && Text.Lower(scheme) == Text.Lower(schemes[i])
    ensures Resolve(RegisterAll(m, schemes, h).0, eps, scheme) == (Ok(h), RegisterAll(m, schemes, h).0)
  {
    RegisterAllSucceeds(m, schemes, h);
    assert schemes[i] in schemes;
    assert Text.Lower(scheme) in LowerAll(schemes);
  }

  /** The module-level registry `INTERFACE_REGISTRY`. */
  class InterfaceRegistry {
    var handlers: map<string, Handler>

    constructor ()
      ensures handlers == map[]
    {
      handlers := map[];
    }

    /** `register_interface(*schemes)(h)`. */
    method Register(schemes: seq<string>, h: Handler) returns (o: Outcome)
      modifies this
      ensures (handlers, o) == RegisterAll(old(handlers), schemes, h)
    {
      var i := 0;
      while i < |schemes|
        invariant 0 <= i <= |schemes|
        invariant RegisterAll(old(handlers), schemes, h) == RegisterAll(handlers, schemes[i..], h)
      {
        assert schemes[i..][1..] == schemes[i + 1..];
        var l := Text.Lower(schemes[i]);
        if l in handlers {
          return Fail(KeyError);
        }
        handlers := handlers[l := h];
        i := i + 1;
      }
      return Pass;
    }

    /** `init_interface`: the handler that is then called with the URI, the
        configuration, the four callbacks and the extra keywords. */
    method InitInterface(scheme: string, eps: seq<EntryPoint>) returns (r: Result<Handler>)
      modifies this
      ensures (r, handlers) == Resolve(old(handlers), eps, scheme)
    {
      var s := Text.Lower(scheme);
      if s !in handlers {
        var i := 0;
        while i < |eps| && Text.Lower(eps[i].name) != s
          invariant 0 <= i <= |eps|
          invariant forall j | 0 <= j < i :: Text.Lower(eps[j].name) != s
        {
          i := i + 1;
        }
        if i == |eps| {
          return Err(ValueError);
        }
        var loaded := eps[i].target;
        if !loaded.subclassesInterface {
          return Err(TypeError);
        }
        handlers := handlers[s := loaded];
      }
      return Ok(handlers[s]);
    }
  }
}
