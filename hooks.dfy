/**
 * The event hook that adds the short name of the calling function, and
 * the logger option that installs it.
 */
module Hooks {
  import opened Wrappers
  import opened Text
  import opened Zerolog

  /** The key of the field the hook adds. */
  const FuncKey: string := "caller_fn"

  /**
   * The short function name: split the qualified name on '.', keep the
   * last n = 1 pieces and join them back. The fallback to the first piece
   * for a split with fewer than n pieces cannot be taken, since a split
   * always has at least one piece. The result is the text after the last
   * '.', so it holds no '.'.
   */
  function ShortFuncName(fn: string): (r: string)
    ensures r == LastSegment(fn, '.')
    ensures '.' !in r
  {
    var lst := Split(fn, '.');
    var n := 1;
    if |lst| < n then
      assert false; ""
    else
      LastPieceIsLastSegment(fn, '.');
      JoinLastOne(lst, '.');
      Join(lst[|lst| - n..], '.')
  }

  /** A name without '.' is kept as it is. */
  lemma ShortFuncNameWithoutDot(fn: string)
    requires '.' !in fn
    ensures ShortFuncName(fn) == fn
  {
    LastSegmentWithoutSep(fn, '.');
  }

  /** Shortening an already short name changes nothing. */
  lemma ShortFuncNameIdempotent(fn: string)
    ensures ShortFuncName(ShortFuncName(fn)) == ShortFuncName(fn)
  {
    ShortFuncNameWithoutDot(ShortFuncName(fn));
  }

  /** A method of a pointer receiver keeps only the method name. */
  lemma ShortFuncNameOfMethod()
    ensures ShortFuncName("pkg.(*T).Method") == "Method"
  {
    assert "pkg.(*T).Method" == "pkg.(*T)" + ['.'] + "Method";
    LastSegmentAfterSep("pkg.(*T)", '.', "Method");
  }

  /**
   * The hook run on each event. `frame` is the name of the function found
   * two frames above zerolog's own skip count, or None when the stack
   * lookup fails; in
   * that case the event is left alone, otherwise exactly one field is added
   * at its end, keyed caller_fn, holding the short name.
   */
  function FuncName(e: Event, frame: Option<string>): (r: Event)
    ensures frame.None? ==> r == e
    ensures frame.Some? ==>
      && |r.fields| == |e.fields| + 1
      && r.fields[..|e.fields|] == e.fields
      && r.fields[|e.fields|].key == FuncKey
      && r.fields[|e.fields|].value == LastSegment(frame.value, '.')
  {
    match frame
    case None => e
    case Some(fn) =>
      Event(e.fields + [Field(FuncKey, ShortFuncName(fn))])
  }

  /** What an installed hook does to an event, given the stack lookup's answer. */
  function RunHook(h: HookFunc, e: Event, frame: Option<string>): Event {
    match h
    case FuncNameHook => FuncName(e, frame)
  }

  /** WithFuncNameHook: the logger option that adds the FuncName hook last. */
  function WithFuncNameHook(): (h: Logger -> Logger)
    ensures forall l :: h(l).hooks == l.hooks + [FuncNameHook]
    ensures forall l :: h(l).out == l.out && h(l).caller == l.caller && h(l).timestamp == l.timestamp
  {
    l => Hook(l, FuncNameHook)
  }

  /** On a successful lookup the hook adds caller_fn holding the text after the last '.' of the name. */
  lemma FuncNameHookAddsShortName(e: Event, fn: string)
    ensures RunHook(FuncNameHook, e, Some(fn)).fields == e.fields + [Field(FuncKey, LastSegment(fn, '.'))]
  {
    var r := FuncName(e, Some(fn));
    assert r.fields == r.fields[..|e.fields|] + [r.fields[|e.fields|]];
  }

  /** The hook WithFuncNameHook adds is the function-name hook, and it runs last. */
  lemma WithFuncNameHookRunsLast(l: Logger)
    ensures var hl := WithFuncNameHook()(l);
      |hl.hooks| >= 1 && hl.hooks[|hl.hooks| - 1] == FuncNameHook
  {
    var hl := WithFuncNameHook()(l);
    assert hl.hooks == l.hooks + [FuncNameHook];
  }
}
