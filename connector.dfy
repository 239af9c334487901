/**
 * `WP_Stream_Connector`, the base every connector extends: the hook callback that
 * dispatches to `callback_<action>`, the default `action_links`, `log`, which drops
 * excluded context/action pairs before handing the event to `WP_Stream_Log`, and the
 * delayed-log table that is committed at shutdown.
 */
module Connector {
  import opened Php
  import Connectors
  import StreamLog

  /** `'callback_' . str_replace( '-', '_', $action )`. */
  function CallbackName(action: string): (name: string)
    ensures |name| == |action| + 9 && name[..9] == "callback_"
    ensures forall i :: 9 <= i < |name| ==> name[i] != '-'
    ensures forall i :: 0 <= i < |action| ==> name[9 + i] == if action[i] == '-' then '_' else action[i]
  {
    "callback_" + ReplaceChar(action, '-', '_')
  }

  /**
   * `callback`: the method it calls for the current hook, or `None` when the connector
   * has no callable method of that name.
   */
  function Callback(action: string, isCallable: string -> bool): (target: Option<string>)
    ensures target.Some? <==> isCallable(CallbackName(action))
    ensures target.Some? ==> target.value == CallbackName(action)
  {
    var name := CallbackName(action);
    if isCallable(name) then Some(name) else None
  }

  /** Hooks whose names differ only in `-` versus `_` reach the same callback. */
  lemma DashAndUnderscoreMeet(a: string, b: string)
    requires |a| == |b|
    requires forall i :: 0 <= i < |a| ==> a[i] == b[i] || (a[i] == '-' && b[i] == '_') || (a[i] == '_' && b[i] == '-')
    ensures CallbackName(a) == CallbackName(b)
  {
    assert ReplaceChar(a, '-', '_') == ReplaceChar(b, '-', '_');
  }

  /** The default `action_links` adds no link. */
  function ActionLinks(links: OMap<Value>, record: Value): (r: OMap<Value>)
    ensures r == links
  {
    links
  }

  // ---------------------------------------------------------------------------------
  // log

  /** A context/action pair survives iff neither slug is excluded. */
  predicate PairAllowed(excludedBy: string -> seq<string>, context: string, action: string)
  {
    Connectors.IsLoggingEnabled(excludedBy, "contexts", context)
    && Connectors.IsLoggingEnabled(excludedBy, "actions", action)
  }

  /** The test `log` applies to each context → action entry. */
  function KeepPair(excludedBy: string -> seq<string>): ((string, string)) -> bool
  {
    (e: (string, string)) => PairAllowed(excludedBy, e.0, e.1)
  }

  /** The context → action entries that survive, in order. */
  function Allowed(contexts: OMap<string>, excludedBy: string -> seq<string>): OMap<string>
  {
    FilterEntries(contexts, KeepPair(excludedBy))
  }

  /** Exactly the unexcluded pairs survive, unchanged. */
  lemma AllowedSpec(contexts: OMap<string>, excludedBy: string -> seq<string>)
    ensures forall e :: e in Allowed(contexts, excludedBy) <==> e in contexts && PairAllowed(excludedBy, e.0, e.1)
  {
    FilterEntriesSpec(contexts, KeepPair(excludedBy));
  }

  /** The unset loop of `log`: every excluded pair is unset from `$contexts`. */
  method FilterContexts(contexts: OMap<string>, excludedBy: string -> seq<string>) returns (kept: OMap<string>)
    requires Wf(contexts)
    ensures kept == Allowed(contexts, excludedBy)
  {
    kept := contexts;
    var i := 0;
    while i < |contexts|
      invariant 0 <= i <= |contexts|
      invariant kept == FilterEntries(contexts[..i], KeepPair(excludedBy)) + contexts[i..]
    {
      var e := contexts[i];
      UnsetLoopStep(contexts, i, KeepPair(excludedBy));
      if !Connectors.IsLoggingEnabled(excludedBy, "contexts", e.0) {
        kept := Remove(kept, e.0);
      } else if !Connectors.IsLoggingEnabled(excludedBy, "actions", e.1) {
        kept := Remove(kept, e.0);
      }
      i := i + 1;
    }
    assert contexts[..|contexts|] == contexts;
  }

  /** The arguments of the `WP_Stream_Log::log` call, slot by slot. */
  datatype LogCall = LogCall(connector: Value, message: string, args: OMap<Value>, objectId: Value,
                             context: Value, action: Value, userId: Value)

  /** A context → action table as a PHP array value. */
  function ContextsValue(m: OMap<string>): (v: Value)
    ensures v.Arr? && |v.entries| == |m|
    ensures forall i :: 0 <= i < |m| ==> v.entries[i] == (m[i].0, Str(m[i].1))
  {
    Arr(seq(|m|, i requires 0 <= i < |m| => (m[i].0, Str(m[i].1))))
  }

  /**
   * `log`, as written: the filtered contexts go into the logger's `$context` slot and
   * `$user_id` into its `$action` slot, leaving the logger's own `$user_id` at null.
   * `name` is the calling connector's `$name`.
   */
  method Log(name: Value, message: string, args: OMap<Value>, objectId: Value, contexts: OMap<string>,
             userId: Value, excludedBy: string -> seq<string>)
    returns (call: Option<LogCall>)
    requires Wf(contexts)
    ensures call.None? <==> Allowed(contexts, excludedBy) == []
    ensures call.Some? ==>
              call.value == LogCall(name, message, args, objectId, ContextsValue(Allowed(contexts, excludedBy)), userId, Null)
  {
    var kept := FilterContexts(contexts, excludedBy);
    if |kept| == 0 {
      return None;
    }
    call := Some(LogCall(name, message, args, objectId, ContextsValue(kept), userId, Null));
  }

  /**
   * What the slot mismatch does to the stored record: its context is the string
   * "Array", its action is the user ID as a string, and its author is the current user.
   */
  lemma DelegatedRecordShape(env: StreamLog.Env, c: LogCall)
    requires c.context.Arr? && c.userId.Null?
    ensures var r := StreamLog.BuildRecord(env, c.connector, c.message, c.args, c.objectId, c.context, c.action,
                                           StreamLog.ResolveUser(env, c.userId));
            r.context == "Array" && r.action == ToStr(c.action) && r.author == env.currentUserId
  {
  }

  /**
   * `log` with the slots matching the logger's signature: one logger call per surviving
   * context → action pair, the context and the action in their own slots and the user
   * id in the user slot.
   */
  function IntendedCalls(name: Value, message: string, args: OMap<Value>, objectId: Value,
                         kept: OMap<string>, userId: Value): (calls: seq<LogCall>)
    ensures |calls| == |kept|
  {
    seq(|kept|, i requires 0 <= i < |kept| => LogCall(name, message, args, objectId, Str(kept[i].0), Str(kept[i].1), userId))
  }

  /**
   * With the slots matching, no call is made iff no pair survives, and the record of
   * each call carries its pair's context and action and the given (or current) user.
   */
  lemma IntendedRecordShape(env: StreamLog.Env, name: Value, message: string, args: OMap<Value>, objectId: Value,
                            contexts: OMap<string>, userId: Value, excludedBy: string -> seq<string>, i: nat)
    requires i < |Allowed(contexts, excludedBy)|
    ensures var calls := IntendedCalls(name, message, args, objectId, Allowed(contexts, excludedBy), userId);
            var c := calls[i];
            var r := StreamLog.BuildRecord(env, c.connector, c.message, c.args, c.objectId, c.context, c.action,
                                           StreamLog.ResolveUser(env, c.userId));
            && r.context == Allowed(contexts, excludedBy)[i].0
            && r.action == Allowed(contexts, excludedBy)[i].1
            && r.author == StreamLog.ResolveUser(env, userId)
  {
  }

  // ---------------------------------------------------------------------------------
  // Delayed logs

  const UndeclaredDelayed: string := "Access to undeclared static property WP_Stream_Connector::$delayed"

  /**
   * `delayed_log` as written: the class declares no `$delayed`, so the assignment to
   * `self::$delayed[$handle]` stops with a fatal error whatever the arguments.
   */
  function DelayedLogAsWritten(table: OMap<seq<Value>>, handle: string, args: seq<Value>): (r: Result<OMap<seq<Value>>>)
    ensures r.Fatal?
  {
    Fatal(UndeclaredDelayed)
  }

  /**
   * The two halves of the `$delayed` finding side by side: as written the call stops,
   * while with the table declared the arguments are stored under the handle and every
   * other handle keeps its entry.
   */
  lemma {:induction false} DelayedLogStoresOnlyWhenDeclared(table: OMap<seq<Value>>, handle: string, args: seq<Value>)
    ensures DelayedLogAsWritten(table, handle, args).Fatal?
    ensures Lookup(Put(table, handle, args), handle) == Some(args)
    ensures forall h :: h != handle ==> Lookup(Put(table, handle, args), h) == Lookup(table, h)
  {
    PutLookup(table, handle, args, handle);
    forall h | h != handle ensures Lookup(Put(table, handle, args), h) == Lookup(table, h) {
      PutLookup(table, handle, args, h);
    }
  }

  /** The delayed-log table with `$delayed` declared as an (initially empty) static array. */
  class DelayedLogs {
    var delayed: OMap<seq<Value>>

    constructor ()
      ensures delayed == []
    {
      delayed := [];
    }

    /** `delayed_log`: the arguments after the handle are stored under the handle. */
    method DelayedLog(handle: string, args: seq<Value>)
      modifies this
      ensures delayed == Put(old(delayed), handle, args)
      ensures forall h :: Lookup(delayed, h) == if h == handle then Some(args) else Lookup(old(delayed), h)
    {
      forall h ensures Lookup(Put(delayed, handle, args), h) == if h == handle then Some(args) else Lookup(delayed, h) {
        PutLookup(delayed, handle, args, h);
      }
      delayed := Put(delayed, handle, args);
    }

    /**
     * `delayed_log_commit`: `log` is called once per stored handle, in table order,
     * with that handle's arguments.
     */
    method DelayedLogCommit() returns (calls: seq<seq<Value>>)
      ensures |calls| == |delayed|
      ensures forall i :: 0 <= i < |delayed| ==> calls[i] == delayed[i].1
    {
      calls := [];
      var i := 0;
      while i < |delayed|
        invariant 0 <= i <= |delayed| && |calls| == i
        invariant forall j :: 0 <= j < i ==> calls[j] == delayed[j].1
      {
        calls := calls + [delayed[i].1];
        i := i + 1;
      }
    }
  }

  /** Reusing a handle overwrites its entry: the table never holds two entries for one handle. */
  lemma DelayedHandleOverwrites(table: OMap<seq<Value>>, handle: string, first: seq<Value>, second: seq<Value>)
    requires Wf(table)
    ensures Wf(Put(Put(table, handle, first), handle, second))
    ensures Lookup(Put(Put(table, handle, first), handle, second), handle) == Some(second)
    ensures |Put(Put(table, handle, first), handle, second)| == |Put(table, handle, first)|
  {
    PutWf(table, handle, first);
    PutWf(Put(table, handle, first), handle, second);
    PutLookup(Put(table, handle, first), handle, second, handle);
    PutLookup(table, handle, first, handle);
  }
}
