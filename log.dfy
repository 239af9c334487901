/**
 * The record logger of classes/class-wp-stream-log.php: the exclusion rule engine
 * (`is_record_excluded`), the normalisation of a raw event into a record (`log`) and
 * the per-request transaction timer that `log` stamps into the record's meta.
 */
module StreamLog {
  import opened Php

  // ---------------------------------------------------------------------------------
  // Exclusion rules

  /**
   * The `exclude_rules` option: one entry per row in `rows` (the `exclude_row` column,
   * whose keys drive the loop) and, for each row key, the value in each parallel column.
   * A column without an entry for a row key reads as "".
   */
  datatype ExcludeSettings = ExcludeSettings(
    rows: OMap<Value>,
    authorOrRole: OMap<string>,
    connector: OMap<string>,
    context: OMap<string>,
    action: OMap<string>,
    ipAddress: OMap<string>)

  /**
   * The `$record` array the rules are compared with. `connector`, `context` and
   * `action` are whatever the caller passed; `role` is the user's first role or null;
   * `ip` is the validated remote address, or false/null when there is none.
   */
  datatype Candidate = Candidate(
    connector: Value,
    context: Value,
    action: Value,
    author: int,
    role: Value,
    ip: Value)

  /** A row's rule after the empty fields are dropped: `None` is an unset field. */
  datatype Rule = Rule(
    connector: Option<string>,
    context: Option<string>,
    action: Option<string>,
    ipAddress: Option<string>,
    author: Option<nat>,
    role: Option<string>)

  function Column(col: OMap<string>, key: string): string
  {
    match Lookup(col, key)
    case Some(s) => s
    case None => ""
  }

  /** `! empty( $v ) ? $v : null` for a string column. */
  function Present(s: string): Option<string>
  {
    if EmptyStr(s) then None else Some(s)
  }

  /** The `$exclude` array of one row, with its null (zero-length) fields filtered out. */
  function RuleOf(es: ExcludeSettings, key: string): Rule
  {
    var aor := Column(es.authorOrRole, key);
    Rule(
      Present(Column(es.connector, key)),
      Present(Column(es.context, key)),
      Present(Column(es.action, key)),
      Present(Column(es.ipAddress, key)),
      if IsNumeric(aor) then Some(AbsInt(aor)) else None,
      if !EmptyStr(aor) && !IsNumeric(aor) then Some(aor) else None)
  }

  /** The one-entry array for a set field, the empty array for an unset one. */
  function Entry<T>(key: string, o: Option<T>, wrap: T -> Value): OMap<Value>
  {
    if o.Some? then [(key, wrap(o.value))] else []
  }

  function StrValue(s: string): Value { Str(s) }

  function IntValue(n: nat): Value { Int(n) }

  /** `$exclude_rules` as the ordered array the inner loop walks. */
  function RuleEntries(r: Rule): OMap<Value>
  {
    Entry("connector", r.connector, StrValue)
    + Entry("context", r.context, StrValue)
    + Entry("action", r.action, StrValue)
    + Entry("ip_address", r.ipAddress, StrValue)
    + Entry("author", r.author, IntValue)
    + Entry("role", r.role, StrValue)
  }

  /** `$record[ $exclude_key ]`. */
  function Field(c: Candidate, key: string): Value
  {
    match key
    case "connector" => c.connector
    case "context" => c.context
    case "action" => c.action
    case "author" => Int(c.author)
    case "role" => c.role
    case "ip_address" => c.ip
    case _ => Null
  }

  /** The inner loop: no entry of the rule differs (`!==`) from the record. */
  function AllMatch(entries: OMap<Value>, c: Candidate): bool
  {
    if entries == [] then true
    else if Field(c, entries[0].0) != entries[0].1 then false
    else AllMatch(entries[1..], c)
  }

  /** The outer loop over `exclude_row`, returning at the first rule that holds. */
  function ExcludedFrom(es: ExcludeSettings, rows: OMap<Value>, c: Candidate): bool
  {
    if rows == [] then false
    else
      var entries := RuleEntries(RuleOf(es, rows[0].0));
      if entries != [] && AllMatch(entries, c) then true
      else ExcludedFrom(es, rows[1..], c)
  }

  /**
   * `is_record_excluded` once its user and IP arguments have been resolved: it holds
   * iff some `exclude_row` key yields a rule that fires.
   */
  function IsRecordExcluded(es: ExcludeSettings, c: Candidate): (b: bool)
    ensures b <==> exists i :: 0 <= i < |es.rows| && Fires(RuleOf(es, es.rows[i].0), c)
  {
    ExcludedIffSomeRuleFires(es, es.rows, c);
    ExcludedFrom(es, es.rows, c)
  }

  // The declarative reading of a rule: fields are ANDed, an empty rule is skipped.

  predicate SetsSomething(r: Rule)
  {
    r.connector.Some? || r.context.Some? || r.action.Some? || r.ipAddress.Some?
    || r.author.Some? || r.role.Some?
  }

  predicate Matches(r: Rule, c: Candidate)
  {
    && (r.connector.Some? ==> c.connector == Str(r.connector.value))
    && (r.context.Some? ==> c.context == Str(r.context.value))
    && (r.action.Some? ==> c.action == Str(r.action.value))
    && (r.ipAddress.Some? ==> c.ip == Str(r.ipAddress.value))
    && (r.author.Some? ==> c.author == r.author.value)
    && (r.role.Some? ==> c.role == Str(r.role.value))
  }

  predicate Fires(r: Rule, c: Candidate)
  {
    SetsSomething(r) && Matches(r, c)
  }

  lemma {:induction false} AllMatchAppend(a: OMap<Value>, b: OMap<Value>, c: Candidate)
    ensures AllMatch(a + b, c) == (AllMatch(a, c) && AllMatch(b, c))
  {
    if a == [] {
      assert a + b == b;
    } else {
      assert (a + b)[0] == a[0];
      assert (a + b)[1..] == a[1..] + b;
      AllMatchAppend(a[1..], b, c);
    }
  }

  lemma AllMatchEntry<T>(key: string, o: Option<T>, wrap: T -> Value, c: Candidate)
    ensures AllMatch(Entry(key, o, wrap), c) == (o.Some? ==> Field(c, key) == wrap(o.value))
  {
    if o.Some? {
      var e := Entry(key, o, wrap);
      assert e[1..] == [];
    }
  }

  /** The inner loop computes exactly the conjunction of the rule's set fields. */
  lemma RuleEntriesMeaning(r: Rule, c: Candidate)
    ensures (RuleEntries(r) != []) == SetsSomething(r)
    ensures AllMatch(RuleEntries(r), c) == Matches(r, c)
  {
    var e1 := Entry("connector", r.connector, StrValue);
    var e2 := Entry("context", r.context, StrValue);
    var e3 := Entry("action", r.action, StrValue);
    var e4 := Entry("ip_address", r.ipAddress, StrValue);
    var e5 := Entry("author", r.author, IntValue);
    var e6 := Entry("role", r.role, StrValue);
    AllMatchEntry("connector", r.connector, StrValue, c);
    AllMatchEntry("context", r.context, StrValue, c);
    AllMatchEntry("action", r.action, StrValue, c);
    AllMatchEntry("ip_address", r.ipAddress, StrValue, c);
    AllMatchEntry("author", r.author, IntValue, c);
    AllMatchEntry("role", r.role, StrValue, c);
    AllMatchAppend(e1 + e2 + e3 + e4 + e5, e6, c);
    AllMatchAppend(e1 + e2 + e3 + e4, e5, c);
    AllMatchAppend(e1 + e2 + e3, e4, c);
    AllMatchAppend(e1 + e2, e3, c);
    AllMatchAppend(e1, e2, c);
    assert |RuleEntries(r)| == |e1| + |e2| + |e3| + |e4| + |e5| + |e6|;
  }

  /**
   * A record is excluded iff some `exclude_row` yields a rule that sets some field and
   * whose every set field equals the record's (rules ORed, fields ANDed).
   */
  lemma {:induction false} ExcludedIffSomeRuleFires(es: ExcludeSettings, rows: OMap<Value>, c: Candidate)
    ensures ExcludedFrom(es, rows, c) <==>
            exists i :: 0 <= i < |rows| && Fires(RuleOf(es, rows[i].0), c)
  {
    if rows != [] {
      RuleEntriesMeaning(RuleOf(es, rows[0].0), c);
      ExcludedIffSomeRuleFires(es, rows[1..], c);
      SomeRuleFiresCons(es, rows, c);
    }
  }

  /** Some row fires iff the first one does or some later one does. */
  lemma SomeRuleFiresCons(es: ExcludeSettings, rows: OMap<Value>, c: Candidate)
    requires rows != []
    ensures (exists i :: 0 <= i < |rows| && Fires(RuleOf(es, rows[i].0), c)) <==>
            Fires(RuleOf(es, rows[0].0), c) || exists i :: 0 <= i < |rows[1..]| && Fires(RuleOf(es, rows[1..][i].0), c)
  {
    if exists i :: 0 <= i < |rows| && Fires(RuleOf(es, rows[i].0), c) {
      var i :| 0 <= i < |rows| && Fires(RuleOf(es, rows[i].0), c);
      if i > 0 { assert rows[1..][i - 1] == rows[i]; }
    }
    if exists i :: 0 <= i < |rows[1..]| && Fires(RuleOf(es, rows[1..][i].0), c) {
      var i :| 0 <= i < |rows[1..]| && Fires(RuleOf(es, rows[1..][i].0), c);
      assert rows[i + 1] == rows[1..][i];
    }
  }

  /** A row whose five columns are all empty sets no field, so it excludes nothing. */
  lemma EmptyRowSetsNothing(es: ExcludeSettings, key: string)
    requires Column(es.authorOrRole, key) == ""
    requires EmptyStr(Column(es.connector, key)) && EmptyStr(Column(es.context, key))
    requires EmptyStr(Column(es.action, key)) && EmptyStr(Column(es.ipAddress, key))
    ensures !SetsSomething(RuleOf(es, key))
    ensures RuleEntries(RuleOf(es, key)) == []
  {
  }

  /**
   * `author_or_role`: a numeric value constrains `author` to its `absint`, a non-empty
   * non-numeric value constrains `role`, and no row constrains both.
   */
  lemma AuthorOrRoleRule(es: ExcludeSettings, key: string)
    ensures var aor := Column(es.authorOrRole, key);
            var r := RuleOf(es, key);
            && (IsNumeric(aor) ==> r.author == Some(AbsInt(aor)) && r.role == None)
            && (!EmptyStr(aor) && !IsNumeric(aor) ==> r.role == Some(aor) && r.author == None)
            && !(r.author.Some? && r.role.Some?)
  {
  }

  /** "0" is numeric, so a row holding only author_or_role "0" excludes user 0. */
  lemma ZeroAuthorRowExcludesUserZero(es: ExcludeSettings, c: Candidate)
    requires |es.rows| == 1 && c.author == 0
    requires Column(es.authorOrRole, es.rows[0].0) == "0"
    requires EmptyStr(Column(es.connector, es.rows[0].0)) && EmptyStr(Column(es.context, es.rows[0].0))
    requires EmptyStr(Column(es.action, es.rows[0].0)) && EmptyStr(Column(es.ipAddress, es.rows[0].0))
    ensures IsRecordExcluded(es, c)
  {
    ZeroIsNumeric();
    AuthorOrRoleRule(es, es.rows[0].0);
    assert RuleOf(es, es.rows[0].0).author == Some(0);
    assert Fires(RuleOf(es, es.rows[0].0), c);
  }

  // ---------------------------------------------------------------------------------
  // Records

  /** What `new WP_User( $id )` exposes to the logger. */
  datatype WpUser = WpUser(id: int, roles: seq<string>, email: string, login: string)

  /**
   * Everything `log` reads from WordPress: settings, the current user, the author and
   * agent lookups, the clock, the request's address and the formatting helpers.
   */
  datatype Env = Env(
    cronTracking: Value,
    excludeRules: ExcludeSettings,
    currentUserId: int,
    userOf: int -> WpUser,
    agentOf: int -> string,
    displayNameOf: int -> string,
    roleLabelOf: int -> string,
    posixUser: Option<(int, string)>,
    siteId: int,
    blogId: int,
    created: string,
    remoteIp: Value,
    vsprintf: (string, OMap<Value>) -> string,
    serialize: Value -> string)

  datatype Record = Record(
    objectId: int,
    siteId: int,
    blogId: int,
    author: int,
    authorRole: string,
    authorMeta: OMap<Value>,
    created: string,
    visibility: string,
    recordType: string,
    summary: string,
    connector: string,
    context: string,
    action: string,
    streamMeta: OMap<Value>,
    ip: string)

  datatype LogOutcome = Skipped | Stored(record: Record)

  predicate NotNull(v: Value)
  {
    !v.Null?
  }

  function Stringify(m: OMap<Value>, ser: Value -> string): (r: OMap<Value>)
    ensures |r| == |m|
    ensures forall i :: 0 <= i < |m| ==> r[i] == (m[i].0, Str(ser(m[i].1)))
  {
    if m == [] then [] else [(m[0].0, Str(ser(m[0].1)))] + Stringify(m[1..], ser)
  }

  /** `array_filter` dropping nulls, then `array_walk` casting every value to a string. */
  function StreamMeta(args: OMap<Value>, ser: Value -> string): OMap<Value>
  {
    Stringify(FilterValues(args, NotNull), ser)
  }

  /** The keys of the non-null arguments, in their original order. */
  function NonNullKeys(args: OMap<Value>): seq<string>
  {
    if args == [] then []
    else if args[0].1.Null? then NonNullKeys(args[1..])
    else [args[0].0] + NonNullKeys(args[1..])
  }

  lemma {:induction false} FilterNotNull(args: OMap<Value>)
    ensures Keys(FilterValues(args, NotNull)) == NonNullKeys(args)
    ensures forall i :: 0 <= i < |FilterValues(args, NotNull)| ==>
              FilterValues(args, NotNull)[i] in args && !FilterValues(args, NotNull)[i].1.Null?
  {
    if args != [] {
      FilterNotNull(args[1..]);
      if NotNull(args[0].1) {
        assert FilterValues(args, NotNull) == [args[0]] + FilterValues(args[1..], NotNull);
        assert Keys(FilterValues(args, NotNull)) == [args[0].0] + Keys(FilterValues(args[1..], NotNull));
      }
    }
  }

  /**
   * After the meta step every value is a string, the surviving keys are exactly the keys
   * of the non-null arguments in their original order, and each comes from its argument.
   */
  lemma StreamMetaSpec(args: OMap<Value>, ser: Value -> string)
    ensures Keys(StreamMeta(args, ser)) == NonNullKeys(args)
    ensures forall i :: 0 <= i < |StreamMeta(args, ser)| ==> StreamMeta(args, ser)[i].1.Str?
    ensures forall i :: 0 <= i < |StreamMeta(args, ser)| ==>
              exists v :: (StreamMeta(args, ser)[i].0, v) in args && !v.Null? && StreamMeta(args, ser)[i].1 == Str(ser(v))
  {
    var f := FilterValues(args, NotNull);
    FilterNotNull(args);
    var r := StreamMeta(args, ser);
    forall i | 0 <= i < |r|
      ensures exists v :: (r[i].0, v) in args && !v.Null? && r[i].1 == Str(ser(v))
    {
      assert f[i] in args;
      assert (r[i].0, f[i].1) == f[i];
    }
  }

  /**
   * The meta step as `log` runs it: a walk over the arguments keeping the non-null
   * ones and replacing each kept value by its string.
   */
  method MetaStep(args: OMap<Value>, ser: Value -> string) returns (meta: OMap<Value>)
    ensures meta == StreamMeta(args, ser)
  {
    var kept: OMap<Value> := [];
    var i := 0;
    assert args[0..] == args;
    while i < |args|
      invariant 0 <= i <= |args|
      invariant FilterValues(args, NotNull) == kept + FilterValues(args[i..], NotNull)
    {
      FilterStep(args, i);
      if !args[i].1.Null? {
        kept := kept + [args[i]];
      }
      i := i + 1;
    }
    meta := [];
    var j := 0;
    while j < |kept|
      invariant 0 <= j <= |kept|
      invariant meta == Stringify(kept[..j], ser)
    {
      StringifySnoc(kept, j, ser);
      meta := meta + [(kept[j].0, Str(ser(kept[j].1)))];
      j := j + 1;
    }
    assert kept[..|kept|] == kept;
  }

  /** The filter over `args[i..]` decides `args[i]`, then goes on with the rest. */
  lemma FilterStep(args: OMap<Value>, i: nat)
    requires i < |args|
    ensures FilterValues(args[i..], NotNull)
         == (if !args[i].1.Null? then [args[i]] else []) + FilterValues(args[i + 1..], NotNull)
  {
    assert args[i..][1..] == args[i + 1..];
  }

  /** Casting one more entry extends the cast prefix by that entry's string. */
  lemma StringifySnoc(m: OMap<Value>, j: nat, ser: Value -> string)
    requires j < |m|
    ensures Stringify(m[..j + 1], ser) == Stringify(m[..j], ser) + [(m[j].0, Str(ser(m[j].1)))]
  {
    var a, b := Stringify(m[..j + 1], ser), Stringify(m[..j], ser) + [(m[j].0, Str(ser(m[j].1)))];
    assert |a| == |b|;
    forall k | 0 <= k < |a| ensures a[k] == b[k] {
      if k < j {
        assert m[..j + 1][k] == m[..j][k];
      }
    }
  }

  /** The normalised record, before the transaction keys are added. */
  function BuildRecord(env: Env, connector: Value, message: string, args: OMap<Value>,
                       objectId: Value, context: Value, action: Value, userId: int): (r: Record)
    ensures r.streamMeta == StreamMeta(args, env.serialize)
  {
    var user := env.userOf(userId);
    var agent := env.agentOf(userId);
    var baseMeta := [
      ("user_email", Str(if EmptyStr(user.email) then "" else user.email)),
      ("display_name", Str(env.displayNameOf(userId))),
      ("user_login", Str(if EmptyStr(user.login) then "" else user.login)),
      ("user_role_label", Str(env.roleLabelOf(userId))),
      ("agent", Str(agent))];
    var authorMeta :=
      if agent == "wp_cli" && env.posixUser.Some? then
        baseMeta + [("system_user_id", Int(env.posixUser.value.0)),
                    ("system_user_name", Str(env.posixUser.value.1))]
      else baseMeta;
    Record(
      IntCast(if objectId.Null? then Int(0) else objectId),
      env.siteId,
      env.blogId,
      userId,
      if user.roles != [] then user.roles[0] else "",
      authorMeta,
      env.created,
      Visibility(env, connector, context, action, user),
      "stream",
      env.vsprintf(message, args),
      ToStr(connector),
      ToStr(context),
      ToStr(action),
      StreamMeta(args, env.serialize),
      ToStr(env.remoteIp))
  }

  /** What `is_record_excluded` sees when `log` calls it with the event's user. */
  function CandidateOf(env: Env, connector: Value, context: Value, action: Value, user: WpUser): Candidate
  {
    Candidate(connector, context, action, user.id,
              if user.roles != [] then Str(user.roles[0]) else Null, env.remoteIp)
  }

  /** `'private'` iff the event is excluded, `'publish'` otherwise. */
  function Visibility(env: Env, connector: Value, context: Value, action: Value, user: WpUser): string
  {
    if IsRecordExcluded(env.excludeRules, CandidateOf(env, connector, context, action, user))
    then "private" else "publish"
  }

  /**
   * The stored record is private iff the event, seen with its resolved user, is
   * excluded; every other record is published.
   */
  lemma RecordVisibility(env: Env, connector: Value, message: string, args: OMap<Value>,
                         objectId: Value, context: Value, action: Value, userId: int)
    ensures var r := BuildRecord(env, connector, message, args, objectId, context, action, userId);
            && (r.visibility == "private" <==>
                  IsRecordExcluded(env.excludeRules, CandidateOf(env, connector, context, action, env.userOf(userId))))
            && (r.visibility == "private" || r.visibility == "publish")
  {
  }

  /** `log` gives up when cron tracking is off and the agent is WP-Cron. */
  predicate CronSkipped(env: Env, userId: int)
  {
    !Truthy(env.cronTracking) && env.agentOf(userId) == "wp_cron"
  }

  function ResolveUser(env: Env, userId: Value): int
  {
    if userId.Null? then env.currentUserId else IntCast(userId)
  }

  /** `empty( $transaction->start )`. */
  predicate TimerArmed(start: Option<int>)
  {
    start.Some? && start.value != 0
  }

  /** The three transaction keys written into the meta, with PHP assignment semantics. */
  function WithTransaction(meta: OMap<Value>, start: int, stop: int): OMap<Value>
  {
    Put(Put(Put(meta, "transaction_start", Int(start)), "transaction_stop", Int(stop)),
        "transaction_time", Int(stop - start))
  }

  lemma WithTransactionSpec(meta: OMap<Value>, start: int, stop: int, k: string)
    ensures Lookup(WithTransaction(meta, start, stop), k) ==
            if k == "transaction_start" then Some(Int(start))
            else if k == "transaction_stop" then Some(Int(stop))
            else if k == "transaction_time" then Some(Int(stop - start))
            else Lookup(meta, k)
  {
    var m1 := Put(meta, "transaction_start", Int(start));
    var m2 := Put(m1, "transaction_stop", Int(stop));
    PutLookup(meta, "transaction_start", Int(start), k);
    PutLookup(m1, "transaction_stop", Int(stop), k);
    PutLookup(m2, "transaction_time", Int(stop - start), k);
  }

  /**
   * `WP_Stream_Log` with its static transaction object and the store it hands records to.
   * Times are integer milliseconds.
   */
  class Logger {
    var start: Option<int>
    var stop: Option<int>
    var time: Option<int>
    /** Every record handed to the store, oldest first. */
    var stored: seq<Record>

    /** `load`: a fresh `stdClass` transaction has no properties. */
    constructor ()
      ensures start == None && stop == None && time == None && stored == []
    {
      start, stop, time, stored := None, None, None, [];
    }

    /** `transaction_start`, run on `wp_loaded`. */
    method TransactionStart(now: int)
      modifies this`start
      ensures start == Some(now)
    {
      start := Some(now);
    }

    /** `transaction_reset`, run on `shutdown`. */
    method TransactionReset()
      modifies this`start
      ensures start == None
    {
      start := None;
    }

    /**
     * `log`. `stopAt` is the clock when the timer is stopped and `restartAt` the clock
     * when it is re-armed. A skipped cron event changes nothing; otherwise the record is
     * stored, carrying the transaction keys iff the timer was armed.
     */
    method Log(env: Env, connector: Value, message: string, args: OMap<Value>, objectId: Value,
               context: Value, action: Value, userIdArg: Value, stopAt: int, restartAt: int)
      returns (outcome: LogOutcome)
      modifies this
      ensures CronSkipped(env, ResolveUser(env, userIdArg)) ==>
                outcome == Skipped && stored == old(stored)
      ensures CronSkipped(env, ResolveUser(env, userIdArg)) ==>
                start == old(start) && stop == old(stop) && time == old(time)
      ensures !CronSkipped(env, ResolveUser(env, userIdArg)) ==>
                && outcome == Stored(Logged(BuildRecord(env, connector, message, args, objectId, context, action,
                                                        ResolveUser(env, userIdArg)), old(start), stopAt))
                && stored == old(stored) + [outcome.record]
      ensures !CronSkipped(env, ResolveUser(env, userIdArg)) && TimerArmed(old(start)) ==>
                start == Some(restartAt) && stop == Some(stopAt) && time == Some(stopAt - old(start).value)
      ensures !TimerArmed(old(start)) ==>
                start == old(start) && stop == old(stop) && time == old(time)
    {
      var userId := ResolveUser(env, userIdArg);
      if CronSkipped(env, userId) {
        outcome := Skipped;
      } else {
        var meta := MetaStep(args, env.serialize);
        var record := BuildRecord(env, connector, message, args, objectId, context, action, userId);
        record := Store(record, meta, stopAt, restartAt);
        outcome := Stored(record);
      }
    }

    /**
     * The end of `log`: with the timer armed, stop it, stamp the record whose walked
     * meta is `meta`, and re-arm the timer at `restartAt`; then hand the record to the
     * store.
     */
    method Store(record: Record, meta: OMap<Value>, stopAt: int, restartAt: int) returns (stamped: Record)
      requires record.streamMeta == meta
      modifies this
      ensures stamped == Logged(record, old(start), stopAt)
      ensures stored == old(stored) + [stamped]
      ensures TimerArmed(old(start)) ==>
                start == Some(restartAt) && stop == Some(stopAt) && time == Some(stopAt - old(start).value)
      ensures !TimerArmed(old(start)) ==>
                start == old(start) && stop == old(stop) && time == old(time)
    {
      stamped := record;
      if TimerArmed(start) {
        var began := start.value;
        stop := Some(stopAt);
        time := Some(stopAt - began);
        stamped := record.(streamMeta := WithTransaction(meta, began, stopAt));
        TransactionStart(restartAt);
      }
      stored := stored + [stamped];
    }
  }

  /** The record with the transaction keys added to its meta. */
  function Stamped(r: Record, start: int, stop: int): Record
  {
    r.(streamMeta := WithTransaction(r.streamMeta, start, stop))
  }

  /** The record `log` stores: stamped iff the timer was armed when it ran. */
  function Logged(base: Record, start: Option<int>, stopAt: int): Record
  {
    if TimerArmed(start) then Stamped(base, start.value, stopAt) else base
  }

  /** A missing object id is stored as 0 and a missing user id as the current user. */
  lemma DefaultsForMissingIds(env: Env, connector: Value, message: string, args: OMap<Value>,
                              context: Value, action: Value)
    ensures var r := BuildRecord(env, connector, message, args, Null, context, action, ResolveUser(env, Null));
            r.objectId == 0 && r.author == env.currentUserId
  {
  }
}
