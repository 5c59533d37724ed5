/** Scopes (`Environment`): three maps per scope and a link to the enclosing scope.

    The scopes of a run live in one arena, a sequence of frames in creation order; a scope
    is an index into it and its parent is always an older index.  Scopes are never
    removed (a destroyed scope is emptied, as `destroy` does), so an index stays valid for
    the whole run.  The functions below say what each operation does to the arena; the
    class `Scopes` holds the arena in a field and its methods are proved to do exactly
    that. */
module Environments {
  import opened Wrappers
  import opened Values

  /** One `Environment` object: `variables`, `constants` (only its keys matter) and
      `functions`, and the parent scope. */
  datatype Frame = Frame(variables: map<string, Value>, constants: set<string>,
                         functions: map<string, Value>, parent: Option<nat>)

  /** The result of an operation that changes the arena and produces a value. */
  datatype Outcome = Outcome(frames: seq<Frame>, value: Value)

  function EmptyFrame(parent: Option<nat>): Frame
  {
    Frame(map[], {}, map[], parent)
  }

  /** A name is marked constant or function only while it is bound. */
  predicate Tidy(f: Frame)
  {
    f.constants <= f.variables.Keys && f.functions.Keys <= f.variables.Keys
  }

  /** Every parent link points to an older scope, and every frame is tidy. */
  predicate ValidArena(frames: seq<Frame>)
  {
    forall i :: 0 <= i < |frames| ==>
      Tidy(frames[i]) && (frames[i].parent.Some? ==> frames[i].parent.value < i)
  }

  /** `b` is a later state of the arena `a` in which only scope `env` and the scopes created
      since may have gained names: every older scope keeps its parent link, and no other
      scope binds a name it did not bind before. */
  predicate Confined(a: seq<Frame>, b: seq<Frame>, env: nat)
  {
    |a| <= |b| &&
    forall k :: 0 <= k < |a| ==>
      b[k].parent == a[k].parent && (k != env ==> b[k].variables.Keys <= a[k].variables.Keys)
  }

  function Undefined(name: string): string { "Undefined variable " + name }
  function Redefined(name: string): string { "Cannot redefine " + name }
  function Reassigned(name: string): string { "Cannot reassign " + name }
  const DeleteFunction: string := "Can't delete function definition"
  const DeleteConstant: string := "Can't delete constant variable"

  /** The nearest scope, from `env` outwards, whose `variables` bind `name`. */
  function Binder(frames: seq<Frame>, env: nat, name: string): (b: Option<nat>)
    requires ValidArena(frames) && env < |frames|
    ensures b.Some? ==> b.value <= env && name in frames[b.value].variables
    ensures name in frames[env].variables ==> b == Some(env)
    decreases env
  {
    if name in frames[env].variables then Some(env)
    else match frames[env].parent
      case Some(p) => Binder(frames, p, name)
      case None => None
  }

  /** What a scope hands out for a name it binds: the function entry if there is one. */
  function Stored(f: Frame, name: string): Value
    requires name in f.variables
  {
    if name in f.functions then f.functions[name] else f.variables[name]
  }

  /** `get` */
  function Lookup(frames: seq<Frame>, env: nat, name: string): (r: Result<Value>)
    requires ValidArena(frames) && env < |frames|
    ensures r.Err? ==> r == Err(Undefined(name))
    decreases env
  {
    var f := frames[env];
    if name in f.variables then Ok(Stored(f, name))
    else match f.parent
      case Some(p) => Lookup(frames, p, name)
      case None => Err(Undefined(name))
  }

  /** `define` */
  function Bind(frames: seq<Frame>, env: nat, name: string, value: Value,
                isConstant: bool, isFunction: bool): (r: Result<Outcome>)
    requires ValidArena(frames) && env < |frames|
    ensures r.Ok? ==> ValidArena(r.value.frames) && |r.value.frames| == |frames|
    ensures r.Ok? ==> Confined(frames, r.value.frames, env)
  {
    var f := frames[env];
    if name in f.variables then Err(Redefined(name))
    else
      var g := f.(variables := f.variables[name := value]);
      var h := if isFunction then g.(functions := g.functions[name := value])
               else if isConstant then g.(constants := g.constants + {name})
               else g;
      Ok(Outcome(frames[env := h], value))
  }

  /** `set` */
  function Rebind(frames: seq<Frame>, env: nat, name: string, value: Value): (r: Result<Outcome>)
    requires ValidArena(frames) && env < |frames|
    ensures r.Ok? ==> ValidArena(r.value.frames) && |r.value.frames| == |frames|
    ensures r.Ok? ==> Confined(frames, r.value.frames, env)
    decreases env
  {
    var f := frames[env];
    if name in f.variables then
      if name !in f.constants && name !in f.functions then
        Ok(Outcome(frames[env := f.(variables := f.variables[name := value])], VariableV(name, value)))
      else Err(Reassigned(name))
    else match f.parent
      case Some(p) => Rebind(frames, p, name, value)
      case None => Err(Undefined(name))
  }

  /** `delete` */
  function Unbind(frames: seq<Frame>, env: nat, name: string): (r: Result<Outcome>)
    requires ValidArena(frames) && env < |frames|
    ensures r.Ok? ==> ValidArena(r.value.frames) && |r.value.frames| == |frames|
    ensures r.Ok? ==> Confined(frames, r.value.frames, env)
  {
    var v :- Lookup(frames, env, name);
    var f := frames[env];
    if name in f.functions then Err(DeleteFunction)
    else if name in f.constants then Err(DeleteConstant)
    else Ok(Outcome(frames[env := f.(variables := f.variables - {name})], v))
  }

  /** `destroy` */
  function Cleared(frames: seq<Frame>, env: nat): (fs: seq<Frame>)
    requires ValidArena(frames) && env < |frames|
    ensures ValidArena(fs) && |fs| == |frames| && Confined(frames, fs, env)
  {
    frames[env := EmptyFrame(frames[env].parent)]
  }

  /** `new Environment(parent)` before the standard library is defined: a fresh, empty scope
      at the end of the arena. */
  function Extend(frames: seq<Frame>, parent: Option<nat>): (fs: seq<Frame>)
    requires ValidArena(frames) && (parent.Some? ==> parent.value < |frames|)
    ensures ValidArena(fs) && |fs| == |frames| + 1 && forall k: nat :: Confined(frames, fs, k)
  {
    frames + [EmptyFrame(parent)]
  }

  class Scopes {
    var frames: seq<Frame>

    predicate Valid()
      reads this
    {
      ValidArena(frames)
    }

    constructor()
      ensures Valid() && frames == []
    {
      frames := [];
    }

    /** `new Environment(parent)`: returns the new scope. */
    method NewScope(parent: Option<nat>) returns (env: nat)
      requires Valid() && (parent.Some? ==> parent.value < |frames|)
      modifies this
      ensures Valid() && env == |old(frames)| && frames == Extend(old(frames), parent)
    {
      env := |frames|;
      frames := frames + [EmptyFrame(parent)];
    }

    method Define(env: nat, name: string, value: Value, isConstant: bool, isFunction: bool)
      returns (r: Result<Value>)
      requires Valid() && env < |frames|
      modifies this
      ensures Valid()
      ensures match Bind(old(frames), env, name, value, isConstant, isFunction)
              case Ok(o) => r == Ok(o.value) && frames == o.frames
              case Err(m) => r == Err(m) && frames == old(frames)
    {
      var f := frames[env];
      if name in f.variables {
        return Err(Redefined(name));
      }
      f := f.(variables := f.variables[name := value]);
      if isFunction {
        f := f.(functions := f.functions[name := value]);
      } else if isConstant {
        f := f.(constants := f.constants + {name});
      }
      frames := frames[env := f];
      r := Ok(value);
    }

    method Get(env: nat, name: string) returns (r: Result<Value>)
      requires Valid() && env < |frames|
      ensures r == Lookup(frames, env, name)
      decreases env
    {
      var f := frames[env];
      if name in f.variables {
        if name in f.functions {
          return Ok(f.functions[name]);
        }
        return Ok(f.variables[name]);
      }
      if f.parent.Some? {
        r := Get(f.parent.value, name);
        return;
      }
      r := Err(Undefined(name));
    }

    method Set(env: nat, name: string, value: Value) returns (r: Result<Value>)
      requires Valid() && env < |frames|
      modifies this
      ensures Valid()
      ensures match Rebind(old(frames), env, name, value)
              case Ok(o) => r == Ok(o.value) && frames == o.frames
              case Err(m) => r == Err(m) && frames == old(frames)
      decreases env
    {
      var f := frames[env];
      var isConstant := name in f.constants;
      var isFunction := name in f.functions;
      var alreadyExist := name in f.variables;
      if alreadyExist {
        if !isConstant && !isFunction {
          frames := frames[env := f.(variables := f.variables[name := value])];
          return Ok(VariableV(name, value));
        }
        return Err(Reassigned(name));
      }
      if f.parent.Some? {
        r := Set(f.parent.value, name, value);
        return;
      }
      r := Err(Undefined(name));
    }

    method Delete(env: nat, name: string) returns (r: Result<Value>)
      requires Valid() && env < |frames|
      modifies this
      ensures Valid()
      ensures match Unbind(old(frames), env, name)
              case Ok(o) => r == Ok(o.value) && frames == o.frames
              case Err(m) => r == Err(m) && frames == old(frames)
    {
      var identifier := Get(env, name);
      if identifier.Err? {
        return identifier;
      }
      var f := frames[env];
      if name in f.functions {
        return Err(DeleteFunction);
      }
      if name in f.constants {
        return Err(DeleteConstant);
      }
      frames := frames[env := f.(variables := f.variables - {name})];
      r := identifier;
    }

    method Destroy(env: nat)
      requires Valid() && env < |frames|
      modifies this
      ensures Valid() && frames == Cleared(old(frames), env)
    {
      var f := frames[env];
      frames := frames[env := f.(variables := map[], constants := {}, functions := map[])];
    }
  }
}
