/** What the scope operations promise: nearest binding wins, `define` only looks at its own
    scope, `set` never creates a binding, `delete` and `destroy` touch one scope. */
module EnvironmentProperties {
  import opened Wrappers
  import opened Values
  import opened Environments

  /** Two arenas that agree on every scope up to `k`. */
  predicate AgreeUpTo(a: seq<Frame>, b: seq<Frame>, k: nat)
  {
    k < |a| && k < |b| && forall j :: 0 <= j <= k ==> a[j] == b[j]
  }

  /** `get` returns what the nearest binding scope stores, and fails past the root. */
  lemma {:induction false} LookupNearest(frames: seq<Frame>, env: nat, name: string)
    requires ValidArena(frames) && env < |frames|
    ensures Lookup(frames, env, name) ==
            match Binder(frames, env, name)
            case Some(b) => Ok(Stored(frames[b], name))
            case None => Err(Undefined(name))
    decreases env
  {
    if name !in frames[env].variables && frames[env].parent.Some? {
      LookupNearest(frames, frames[env].parent.value, name);
    }
  }

  /** Lookups from a scope only read that scope and older ones. */
  lemma {:induction false} LookupReadsBelow(a: seq<Frame>, b: seq<Frame>, env: nat, name: string)
    requires ValidArena(a) && ValidArena(b) && AgreeUpTo(a, b, env)
    ensures Lookup(a, env, name) == Lookup(b, env, name)
    ensures Binder(a, env, name) == Binder(b, env, name)
    decreases env
  {
    if name !in a[env].variables && a[env].parent.Some? {
      LookupReadsBelow(a, b, a[env].parent.value, name);
    }
  }

  /** `define` fails exactly when this same scope already binds the name, whatever the
      enclosing scopes bind. */
  lemma BindRedefines(frames: seq<Frame>, env: nat, name: string, value: Value, c: bool, f: bool)
    requires ValidArena(frames) && env < |frames|
    ensures Bind(frames, env, name, value, c, f).Err? <==> name in frames[env].variables
    ensures Bind(frames, env, name, value, c, f).Err? ==>
              Bind(frames, env, name, value, c, f).msg == Redefined(name)
  {
  }

  /** After `define`, the name reads back as the value from that scope, and no other scope
      changed. */
  lemma BindThenLookup(frames: seq<Frame>, env: nat, name: string, value: Value, c: bool, f: bool)
    requires ValidArena(frames) && env < |frames|
    requires Bind(frames, env, name, value, c, f).Ok?
    ensures var o := Bind(frames, env, name, value, c, f).value;
            Lookup(o.frames, env, name) == Ok(value) && o.value == value &&
            forall j :: 0 <= j < |frames| && j != env ==> o.frames[j] == frames[j]
  {
  }

  /** With `isFunction` the name is marked function and never constant; with only
      `isConstant` it is marked constant; a plain `define` marks neither. */
  lemma BindMarks(frames: seq<Frame>, env: nat, name: string, value: Value, c: bool, f: bool)
    requires ValidArena(frames) && env < |frames|
    requires Bind(frames, env, name, value, c, f).Ok?
    ensures var g := Bind(frames, env, name, value, c, f).value.frames[env];
            (name in g.functions <==> f) && (name in g.constants <==> c && !f)
  {
    assert Tidy(frames[env]);
  }

  /** `set` acts on the nearest binding scope only: it overwrites there when the name is
      neither constant nor function there, and fails otherwise. */
  lemma {:induction false} RebindNearest(frames: seq<Frame>, env: nat, name: string, value: Value)
    requires ValidArena(frames) && env < |frames|
    ensures Rebind(frames, env, name, value) ==
            match Binder(frames, env, name)
            case None => Err(Undefined(name))
            case Some(b) =>
              var g := frames[b];
              if name in g.constants || name in g.functions then Err(Reassigned(name))
              else Ok(Outcome(frames[b := g.(variables := g.variables[name := value])],
                              VariableV(name, value)))
    decreases env
  {
    if name !in frames[env].variables && frames[env].parent.Some? {
      RebindNearest(frames, frames[env].parent.value, name, value);
    }
  }

  /** `set` never creates a binding: every scope binds the same names afterwards. */
  lemma RebindNeverCreates(frames: seq<Frame>, env: nat, name: string, value: Value)
    requires ValidArena(frames) && env < |frames|
    requires Rebind(frames, env, name, value).Ok?
    ensures var o := Rebind(frames, env, name, value).value;
            |o.frames| == |frames| &&
            forall j :: 0 <= j < |frames| ==> o.frames[j].variables.Keys == frames[j].variables.Keys
    ensures Lookup(Rebind(frames, env, name, value).value.frames, env, name) == Ok(value)
  {
    RebindNearest(frames, env, name, value);
    var b := Binder(frames, env, name).value;
    var o := Rebind(frames, env, name, value).value;
    assert o.frames[b].variables.Keys == frames[b].variables.Keys;
    LookupNearest(frames, env, name);
    BinderStable(frames, o.frames, env, name);
    LookupNearest(o.frames, env, name);
  }

  /** The binding scope of a name depends only on which names each scope binds. */
  lemma {:induction false} BinderStable(a: seq<Frame>, b: seq<Frame>, env: nat, name: string)
    requires ValidArena(a) && ValidArena(b) && |a| == |b| && env < |a|
    requires forall j :: 0 <= j < |a| ==> a[j].variables.Keys == b[j].variables.Keys && a[j].parent == b[j].parent
    ensures Binder(a, env, name) == Binder(b, env, name)
    decreases env
  {
    assert a[env].variables.Keys == b[env].variables.Keys;
    if name !in a[env].variables && a[env].parent.Some? {
      BinderStable(a, b, a[env].parent.value, name);
    }
  }

  /** `set` of an unbound name fails at the root with "Undefined variable". */
  lemma RebindUnbound(frames: seq<Frame>, env: nat, name: string, value: Value)
    requires ValidArena(frames) && env < |frames| && Lookup(frames, env, name).Err?
    ensures Rebind(frames, env, name, value) == Err(Undefined(name))
  {
    LookupNearest(frames, env, name);
    RebindNearest(frames, env, name, value);
  }

  /** `delete` of a name bound in this scope (not as function or constant) removes it here,
      returns the value it had, and changes no other scope. */
  lemma UnbindRemoves(frames: seq<Frame>, env: nat, name: string)
    requires ValidArena(frames) && env < |frames| && Unbind(frames, env, name).Ok?
    ensures var o := Unbind(frames, env, name).value;
            name !in o.frames[env].variables &&
            o.frames[env].variables == frames[env].variables - {name} &&
            Ok(o.value) == Lookup(frames, env, name) &&
            forall j :: 0 <= j < |frames| && j != env ==> o.frames[j] == frames[j]
  {
  }

  /** `delete` of a name bound only in an enclosing scope returns its value and leaves every
      scope as it was. */
  lemma UnbindAncestorOnly(frames: seq<Frame>, env: nat, name: string)
    requires ValidArena(frames) && env < |frames|
    requires name !in frames[env].variables && Lookup(frames, env, name).Ok?
    ensures Unbind(frames, env, name) == Ok(Outcome(frames, Lookup(frames, env, name).value))
  {
    var f := frames[env];
    assert Tidy(f);
    assert f.variables - {name} == f.variables;
    assert f.(variables := f.variables - {name}) == f;
    assert frames[env := f] == frames;
  }

  /** `delete` throws for an undefined name, and for a name this scope marks function or
      constant. */
  lemma UnbindErrors(frames: seq<Frame>, env: nat, name: string)
    requires ValidArena(frames) && env < |frames|
    ensures Lookup(frames, env, name).Err? ==> Unbind(frames, env, name) == Err(Undefined(name))
    ensures name in frames[env].functions ==> Unbind(frames, env, name) == Err(DeleteFunction)
    ensures name in frames[env].constants && name !in frames[env].functions ==>
              Unbind(frames, env, name) == Err(DeleteConstant)
  {
    LookupNearest(frames, env, name);
    assert Tidy(frames[env]);
  }

  /** `destroy` empties one scope's three maps and keeps its parent; afterwards a lookup
      from it goes straight to the enclosing scope. */
  lemma ClearedForgets(frames: seq<Frame>, env: nat, name: string)
    requires ValidArena(frames) && env < |frames|
    ensures var fs := Cleared(frames, env);
            fs[env].variables == map[] && fs[env].constants == {} && fs[env].functions == map[] &&
            fs[env].parent == frames[env].parent &&
            (forall j :: 0 <= j < |frames| && j != env ==> fs[j] == frames[j]) &&
            Lookup(fs, env, name) ==
              match frames[env].parent
              case Some(p) => Lookup(frames, p, name)
              case None => Err(Undefined(name))
  {
    var fs := Cleared(frames, env);
    if frames[env].parent.Some? {
      LookupReadsBelow(fs, frames, frames[env].parent.value, name);
    }
  }

  /** A new scope sees everything its parent sees, and leaves every lookup from the older
      scopes as it was. */
  lemma ExtendInherits(frames: seq<Frame>, parent: nat, env: nat, name: string)
    requires ValidArena(frames) && parent < |frames| && env < |frames|
    ensures var fs := Extend(frames, Some(parent));
            Lookup(fs, |frames|, name) == Lookup(frames, parent, name) &&
            Lookup(fs, env, name) == Lookup(frames, env, name)
  {
    var fs := Extend(frames, Some(parent));
    LookupReadsBelow(fs, frames, parent, name);
    LookupReadsBelow(fs, frames, env, name);
  }
}
