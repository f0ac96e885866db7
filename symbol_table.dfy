/**
 * The scope stack of the interpreter (include/SymbolTable.hpp,
 * src/SymbolTable.cpp): a vector of frames, each a map from a name to its
 * value, pushed and popped in strict LIFO order. The innermost frame is the
 * last one.
 */
module Symbols {
  import opened Errors
  import opened Values

  type Frame = map<string, Value>

  /**
   * The index of the innermost frame that binds name, or -1 when no frame
   * does (the value SymbolTable::doesSymbolExist computes).
   */
  function Find(frames: seq<Frame>, name: string): (r: int)
    ensures -1 <= r < |frames|
    ensures r >= 0 ==> name in frames[r]
    ensures forall j :: r < j < |frames| ==> name !in frames[j]
  {
    if |frames| == 0 then -1
    else if name in frames[|frames| - 1] then |frames| - 1
    else Find(frames[..|frames| - 1], name)
  }

  /** The innermost binding of name, if any. */
  function Lookup(frames: seq<Frame>, name: string): Option<Value> {
    var k := Find(frames, name);
    if k < 0 then None else Some(frames[k][name])
  }

  /** The value addSymbol stores: an absent value (monostate) becomes Int 0. */
  function Initial(v: Value): Value {
    if v.Unit? then Int(0) else v
  }

  /** The frames after a successful addSymbol: the innermost frame gains the binding. */
  function Declared(frames: seq<Frame>, name: string, v: Value): seq<Frame>
    requires |frames| > 0
  {
    frames[|frames| - 1 := frames[|frames| - 1][name := Initial(v)]]
  }

  /** The frames after a successful updateSymbol: the innermost binding is overwritten. */
  function Assigned(frames: seq<Frame>, name: string, v: Value): seq<Frame>
    requires Find(frames, name) >= 0
  {
    var k := Find(frames, name);
    frames[k := frames[k][name := v]]
  }

  /** addSymbol on a stack of frames: the new stack, or the exception it throws. */
  function AddBinding(frames: seq<Frame>, name: string, v: Value): (r: Result<seq<Frame>>)
    ensures r.Ok? ==> |r.value| == |frames|
  {
    if frames == [] then Err(NoScopeToAdd)
    else if name in frames[|frames| - 1] then Err(Redeclaration(name))
    else Ok(Declared(frames, name, v))
  }

  /** updateSymbol on a stack of frames: the new stack, or the exception it throws. */
  function UpdateBinding(frames: seq<Frame>, name: string, v: Value): (r: Result<seq<Frame>>)
    ensures r.Ok? ==> |r.value| == |frames|
  {
    if Find(frames, name) < 0 then Err(AssignUndeclared(name)) else Ok(Assigned(frames, name, v))
  }

  /** getValue on a stack of frames: the innermost binding, or the exception it throws. */
  function ValueOf(frames: seq<Frame>, name: string): Result<Value> {
    match Lookup(frames, name)
    case Some(v) => Ok(v)
    case None => Err(Undeclared(name))
  }

  class SymbolTable {
    var table: seq<Frame>

    /** SymbolTable::SymbolTable: no frame at all. */
    constructor ()
      ensures table == []
    {
      table := [];
    }

    /** SymbolTable::addScope: push one empty frame. */
    method AddScope()
      modifies this
      ensures table == old(table) + [map[]]
    {
      table := table + [map[]];
    }

    /**
     * SymbolTable::addSymbol: bind name in the innermost frame. Fails on an
     * empty stack and on a name the innermost frame already binds; names
     * bound only in outer frames are shadowed.
     */
    method AddSymbol(symbol: string, value: Value) returns (out: Outcome)
      modifies this
      ensures old(table) == [] ==> out == Fail(NoScopeToAdd)
      ensures old(table) != [] && symbol in old(table)[|old(table)| - 1] ==> out == Fail(Redeclaration(symbol))
      ensures out.Fail? ==> table == old(table)
      ensures out.Pass? <==> old(table) != [] && symbol !in old(table)[|old(table)| - 1]
      ensures out.Pass? ==> table == Declared(old(table), symbol, value)
      ensures (if out.Pass? then Ok(table) else Err(out.error)) == AddBinding(old(table), symbol, value)
    {
      if |table| == 0 {
        return Fail(NoScopeToAdd);
      }
      if symbol in table[|table| - 1] {
        return Fail(Redeclaration(symbol));
      }
      if value.Unit? {
        table := table[|table| - 1 := table[|table| - 1][symbol := Int(0)]];
      } else {
        table := table[|table| - 1 := table[|table| - 1][symbol := value]];
      }
      return Pass;
    }

    /**
     * SymbolTable::doesSymbolExist: scan the frames downwards from the
     * innermost one and return the first index that binds the name, -1 if none.
     */
    method DoesSymbolExist(symbol: string) returns (r: int)
      ensures r == Find(table, symbol)
      ensures -1 <= r < |table|
      ensures r >= 0 ==> symbol in table[r] && forall j :: r < j < |table| ==> symbol !in table[j]
      ensures r == -1 <==> forall j :: 0 <= j < |table| ==> symbol !in table[j]
    {
      var i := |table| - 1;
      while i >= 0
        invariant -1 <= i < |table|
        invariant forall j :: i < j < |table| ==> symbol !in table[j]
      {
        if symbol in table[i] {
          FindIsInnermost(table, symbol, i);
          return i;
        }
        i := i - 1;
      }
      FindIsInnermost(table, symbol, -1);
      return -1;
    }

    /**
     * SymbolTable::updateSymbol: overwrite the binding in the innermost frame
     * that has one (the value is stored as given); fails when no frame binds
     * the name.
     */
    method UpdateSymbol(symbol: string, value: Value) returns (out: Outcome)
      modifies this
      ensures out.Fail? <==> Find(old(table), symbol) == -1
      ensures out.Fail? ==> out == Fail(AssignUndeclared(symbol)) && table == old(table)
      ensures out.Pass? ==> table == Assigned(old(table), symbol, value)
      ensures (if out.Pass? then Ok(table) else Err(out.error)) == UpdateBinding(old(table), symbol, value)
    {
      var tableId := DoesSymbolExist(symbol);
      if tableId == -1 {
        return Fail(AssignUndeclared(symbol));
      }
      table := table[tableId := table[tableId][symbol := value]];
      return Pass;
    }

    /** SymbolTable::getValue: the innermost binding; fails when the name is undeclared. */
    method GetValue(symbol: string) returns (r: Result<Value>)
      ensures r.Err? <==> forall j :: 0 <= j < |table| ==> symbol !in table[j]
      ensures r.Err? ==> r == Err(Undeclared(symbol))
      ensures r.Ok? ==> Lookup(table, symbol) == Some(r.value)
      ensures r == ValueOf(table, symbol)
    {
      var tableId := DoesSymbolExist(symbol);
      if tableId == -1 {
        return Err(Undeclared(symbol));
      }
      return Ok(table[tableId][symbol]);
    }

    /** SymbolTable::removeScope: pop the innermost frame; fails on an empty stack. */
    method RemoveScope() returns (out: Outcome)
      modifies this
      ensures out.Fail? <==> old(table) == []
      ensures out.Fail? ==> out == Fail(NoScopeToRemove) && table == old(table)
      ensures out.Pass? ==> table == old(table)[..|old(table)| - 1]
    {
      if |table| == 0 {
        return Fail(NoScopeToRemove);
      }
      table := table[..|table| - 1];
      return Pass;
    }
  }

  // -----------------------------------------------------------------------
  // Properties of the scope operations
  // -----------------------------------------------------------------------

  /** Find is the highest index binding the name: any such index is it. */
  lemma {:induction false} FindIsInnermost(frames: seq<Frame>, name: string, k: int)
    requires -1 <= k < |frames|
    requires k >= 0 ==> name in frames[k]
    requires forall j :: k < j < |frames| ==> name !in frames[j]
    ensures Find(frames, name) == k
  {
    if |frames| > 0 && k < |frames| - 1 {
      FindIsInnermost(frames[..|frames| - 1], name, k);
    }
  }

  /** Find depends only on which frames bind the name. */
  lemma FindSameDomains(a: seq<Frame>, b: seq<Frame>, name: string)
    requires |a| == |b|
    requires forall j :: 0 <= j < |a| ==> (name in a[j] <==> name in b[j])
    ensures Find(a, name) == Find(b, name)
  {
    FindIsInnermost(b, name, Find(a, name));
  }

  /** After a successful addSymbol the name reads back as the stored value. */
  lemma LookupAfterDeclare(frames: seq<Frame>, name: string, v: Value)
    requires |frames| > 0
    ensures Lookup(Declared(frames, name, v), name) == Some(Initial(v))
  {
    var d := Declared(frames, name, v);
    FindIsInnermost(d, name, |d| - 1);
  }

  /** addSymbol leaves the reading of every other name unchanged. */
  lemma LookupOtherAfterDeclare(frames: seq<Frame>, name: string, v: Value, other: string)
    requires |frames| > 0 && other != name
    ensures Lookup(Declared(frames, name, v), other) == Lookup(frames, other)
  {
    FindSameDomains(frames, Declared(frames, name, v), other);
  }

  /** After a successful updateSymbol(s, v), getValue(s) is v. */
  lemma LookupAfterAssign(frames: seq<Frame>, name: string, v: Value)
    requires Find(frames, name) >= 0
    ensures Lookup(Assigned(frames, name, v), name) == Some(v)
  {
    FindSameDomains(frames, Assigned(frames, name, v), name);
  }

  /**
   * updateSymbol changes only the innermost binding of its name: the number
   * of frames, every other frame, and every other name keep their contents.
   */
  lemma AssignChangesOneBinding(frames: seq<Frame>, name: string, v: Value, other: string)
    requires Find(frames, name) >= 0 && other != name
    ensures |Assigned(frames, name, v)| == |frames|
    ensures forall j :: 0 <= j < |frames| && j != Find(frames, name) ==> Assigned(frames, name, v)[j] == frames[j]
    ensures Lookup(Assigned(frames, name, v), other) == Lookup(frames, other)
  {
    FindSameDomains(frames, Assigned(frames, name, v), other);
  }

  /** A name bound in an outer frame can be declared again in a new inner frame, and it then shadows. */
  lemma ShadowingInNewScope(frames: seq<Frame>, name: string, v: Value)
    ensures name !in (frames + [map[]])[|frames|]
    ensures Lookup(Declared(frames + [map[]], name, v), name) == Some(Initial(v))
    ensures Declared(frames + [map[]], name, v)[..|frames|] == frames
  {
    LookupAfterDeclare(frames + [map[]], name, v);
  }

  /** Pushing a frame and popping it again gives back the original stack. */
  lemma PushPopRestores(frames: seq<Frame>)
    ensures (frames + [map[]])[..|frames|] == frames
  {
  }
}
