/**
 The process-wide writer registry (logdeb.go, `logWriters`, `CreateWriter`).
 Backends register a factory under their name at start-up.
 */
module Registry {

  import opened Common

  /** A `tLogWriter` factory; `Nil` is Go's nil function value. */
  datatype Factory = Nil | Backend(kind: string)

  type Registry = map<string, Factory>

  /** Every registered factory is a real one. */
  predicate WellFormed(reg: Registry) {
    forall n | n in reg :: reg[n].Backend?
  }

  /**
   `CreateWriter`: panics on a nil factory, then on a name already taken;
   otherwise adds exactly the one entry.
   */
  function CreateWriter(reg: Registry, name: string, f: Factory): (res: Outcome<Registry>)
    ensures res.Panic? <==> f.Nil? || name in reg
    ensures f.Nil? ==> res == Panic(NilFactory(name))
    ensures f.Backend? && name in reg ==> res == Panic(DuplicateWriter(name))
    ensures res.Ok? ==> res.value.Keys == reg.Keys + {name} && res.value[name] == f
    ensures res.Ok? ==> forall n | n in reg :: res.value[n] == reg[n]
    ensures res.Ok? && WellFormed(reg) ==> WellFormed(res.value)
  {
    if f.Nil? then Panic(NilFactory(name))
    else if name in reg then Panic(DuplicateWriter(name))
    else Ok(reg[name := f])
  }

  /** Registers a list of backends in order, stopping at the first panic. */
  function RegisterAll(reg: Registry, backends: seq<(string, Factory)>): (res: Outcome<Registry>)
    ensures res.Ok? <==>
      && (forall i | 0 <= i < |backends| :: backends[i].1.Backend? && backends[i].0 !in reg)
      && Distinct(backends)
    ensures res.Ok? ==> res.value.Keys == reg.Keys + NamesOf(backends)
    ensures res.Ok? ==> forall n | n in reg :: res.value[n] == reg[n]
    ensures res.Ok? ==> forall i | 0 <= i < |backends| :: res.value[backends[i].0] == backends[i].1
    decreases |backends|
  {
    if backends == [] then Ok(reg)
    else
      var b := backends[0];
      var rest := backends[1..];
      assert forall i | 0 < i < |backends| :: backends[i] == rest[i - 1];
      assert NamesOf(backends) == {b.0} + NamesOf(rest) by {
        forall n | n in NamesOf(backends) ensures n in {b.0} + NamesOf(rest) {
          var i :| 0 <= i < |backends| && backends[i].0 == n;
          if i > 0 { assert rest[i - 1].0 == n; }
        }
      }
      DistinctCons(backends);
      var next :- CreateWriter(reg, b.0, b.1);
      RegisterAll(next, rest)
  }

  /** No name occurs twice in a list of backends. */
  predicate Distinct(backends: seq<(string, Factory)>) {
    forall i, j | 0 <= i < j < |backends| :: backends[i].0 != backends[j].0
  }

  lemma DistinctCons(backends: seq<(string, Factory)>)
    requires backends != []
    ensures Distinct(backends) <==> backends[0].0 !in NamesOf(backends[1..]) && Distinct(backends[1..])
  {
    var rest := backends[1..];
    assert forall i | 0 < i < |backends| :: backends[i] == rest[i - 1];
  }

  /** The names of a list of backends. */
  function NamesOf(backends: seq<(string, Factory)>): set<string> {
    set i | 0 <= i < |backends| :: backends[i].0
  }

  /**
   Registration order does not matter: two registrations under distinct
   names succeed in one order iff they succeed in the other, with the same
   registry.
   */
  lemma CreateWriterCommutes(reg: Registry, a: string, f: Factory, b: string, g: Factory)
    requires a != b
    ensures RegisterAll(reg, [(a, f), (b, g)]).Ok? <==> RegisterAll(reg, [(b, g), (a, f)]).Ok?
    ensures RegisterAll(reg, [(a, f), (b, g)]).Ok? ==>
      RegisterAll(reg, [(a, f), (b, g)]) == RegisterAll(reg, [(b, g), (a, f)])
  {
    var ab := [(a, f), (b, g)];
    var ba := [(b, g), (a, f)];
    assert ab[1..] == [(b, g)] && ba[1..] == [(a, f)];
    assert ab[1..][1..] == [] && ba[1..][1..] == [];
    if f.Backend? && g.Backend? && a !in reg && b !in reg {
      assert reg[a := f][b := g] == reg[b := g][a := f];
    }
  }
}
