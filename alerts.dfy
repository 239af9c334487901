/**
 * The alert registry of `WP_Stream\Alerts`: the built-in alert types and triggers
 * loaded by slug, validation of whatever the extension filters hand back, matching
 * of each inserted record against the enabled alerts, and the pure helpers around
 * the alerts post type (`get_alert`, the update messages, the save guards).
 *
 * Class loading, object construction and the two extension filters are inputs:
 * `classOf` answers `class_exists` and `new $class_name`, and the filters are
 * functions from the built-in table to the final table.
 */
module Alerts {
  import opened Php

  /** What the registry can observe of a loaded alert type or trigger object. */
  datatype Handler = Handler(
    className: string,
    /** `None` when the object has no `slug` property. */
    slug: Option<string>,
    /** `is_a( $obj, 'WP_Stream\Alert_Type' )`. */
    isAlertType: bool,
    /** `is_a( $obj, 'WP_Stream\Alert_Trigger' )`. */
    isAlertTrigger: bool,
    /** `method_exists( $obj, 'is_dependency_satisfied' )`. */
    hasDependencyCheck: bool,
    /** What `is_dependency_satisfied()` returns. */
    dependencySatisfied: bool)

  const PostType: string := "wp_stream_alerts"
  const TypeSlugs: seq<string> := ["none", "highlight", "email", "iftt"]
  const TriggerSlugs: seq<string> := ["author", "context", "action"]
  const TypePrefix: string := "Alert_Type_"
  const TriggerPrefix: string := "Alert_Trigger_"

  /** `sprintf( '\WP_Stream\<prefix>%s', str_replace( '-', '_', $slug ) )`. */
  function ClassName(prefix: string, slug: string): string
  {
    "\\WP_Stream\\" + prefix + ReplaceChar(slug, '-', '_')
  }

  predicate IsValidAlertType(h: Handler)
  {
    h.isAlertType && h.hasDependencyCheck && h.dependencySatisfied
  }

  predicate IsValidAlertTrigger(h: Handler)
  {
    h.isAlertTrigger && h.hasDependencyCheck && h.dependencySatisfied
  }

  // ---------------------------------------------------------------------------------
  // Loading the built-ins

  /** The assignment one built-in slug contributes: none when its class is missing or has no slug. */
  function LoadedOne(prefix: string, slug: string, classOf: string -> Option<Handler>): OMap<Handler>
  {
    var h := classOf(ClassName(prefix, slug));
    if h.Some? && h.value.slug.Some? then [(h.value.slug.value, h.value)] else []
  }

  /** Every `$classes[ $class->slug ] = $class` the loop performs, in order. */
  function Loaded(prefix: string, slugs: seq<string>, classOf: string -> Option<Handler>): OMap<Handler>
  {
    if slugs == [] then []
    else Loaded(prefix, slugs[..|slugs| - 1], classOf) + LoadedOne(prefix, slugs[|slugs| - 1], classOf)
  }

  /** The table the built-in loop leaves in `$classes`. */
  function Builtins(prefix: string, slugs: seq<string>, classOf: string -> Option<Handler>): OMap<Handler>
  {
    PutAll([], Loaded(prefix, slugs, classOf))
  }

  /** The built-in loop of `load_alert_types` and `load_alert_triggers`. */
  method LoadBuiltins(prefix: string, slugs: seq<string>, classOf: string -> Option<Handler>)
    returns (classes: OMap<Handler>)
    ensures classes == Builtins(prefix, slugs, classOf)
  {
    classes := [];
    var i := 0;
    while i < |slugs|
      invariant 0 <= i <= |slugs|
      invariant classes == PutAll([], Loaded(prefix, slugs[..i], classOf))
    {
      assert slugs[..i + 1][..i] == slugs[..i];
      PutAllSnoc([], Loaded(prefix, slugs[..i], classOf), LoadedOne(prefix, slugs[i], classOf));
      var h := classOf(ClassName(prefix, slugs[i]));
      if h.Some? && h.value.slug.Some? {
        classes := Put(classes, h.value.slug.value, h.value);
      }
      i := i + 1;
    }
    assert slugs[..|slugs|] == slugs;
  }

  lemma {:induction false} LoadedSpec(prefix: string, slugs: seq<string>, classOf: string -> Option<Handler>)
    ensures forall e :: e in Loaded(prefix, slugs, classOf) ==>
              e.1.slug == Some(e.0) && exists s :: s in slugs && classOf(ClassName(prefix, s)) == Some(e.1)
  {
    if slugs != [] {
      var init := slugs[..|slugs| - 1];
      LoadedSpec(prefix, init, classOf);
      forall e | e in Loaded(prefix, slugs, classOf)
        ensures e.1.slug == Some(e.0) && exists s :: s in slugs && classOf(ClassName(prefix, s)) == Some(e.1)
      {
        if e in Loaded(prefix, init, classOf) {
          var s :| s in init && classOf(ClassName(prefix, s)) == Some(e.1);
          assert s in slugs;
        } else {
          assert classOf(ClassName(prefix, slugs[|slugs| - 1])) == Some(e.1);
        }
      }
    }
  }

  /**
   * The built-in table is keyed by slug: every entry is an object of an existing class
   * whose `slug` is its key, and of several objects with the same slug the last wins.
   */
  lemma BuiltinsSpec(prefix: string, slugs: seq<string>, classOf: string -> Option<Handler>, k: string)
    ensures Wf(Builtins(prefix, slugs, classOf))
    ensures Lookup(Builtins(prefix, slugs, classOf), k) ==
            if HasKey(Loaded(prefix, slugs, classOf), k) then Some(LastValue(Loaded(prefix, slugs, classOf), k)) else None
    ensures Lookup(Builtins(prefix, slugs, classOf), k).Some? ==>
              var h := Lookup(Builtins(prefix, slugs, classOf), k).value;
              h.slug == Some(k) && exists s :: s in slugs && classOf(ClassName(prefix, s)) == Some(h)
  {
    var es := Loaded(prefix, slugs, classOf);
    PutAllWf([], es);
    PutAllLookup([], es, k);
    if HasKey(es, k) {
      LastValueIn(es, k);
      LoadedSpec(prefix, slugs, classOf);
    }
  }

  // ---------------------------------------------------------------------------------
  // Validation

  /** `trigger_error` text for an entry that fails validation. */
  function Warning(kind: string, base: string, className: string): string
  {
    "Registered " + kind + " " + className + " does not extend " + base + "."
  }

  /** One warning per invalid entry, in table order. */
  function Warnings(m: OMap<Handler>, valid: Handler -> bool, kind: string, base: string): (w: seq<string>)
    ensures |w| <= |m|
  {
    if m == [] then []
    else (if valid(m[0].1) then [] else [Warning(kind, base, m[0].1.className)]) + Warnings(m[1..], valid, kind, base)
  }

  lemma {:induction false} WarningsAppend(a: OMap<Handler>, b: OMap<Handler>, valid: Handler -> bool, kind: string, base: string)
    ensures Warnings(a + b, valid, kind, base) == Warnings(a, valid, kind, base) + Warnings(b, valid, kind, base)
  {
    if a != [] {
      assert (a + b)[1..] == a[1..] + b;
      WarningsAppend(a[1..], b, valid, kind, base);
    } else {
      assert a + b == b;
    }
  }

  /** A warning is issued for an entry iff it is invalid. */
  lemma {:induction false} WarningsCount(m: OMap<Handler>, valid: Handler -> bool, kind: string, base: string)
    ensures |Warnings(m, valid, kind, base)| + |FilterValues(m, valid)| == |m|
  {
    if m != [] {
      WarningsCount(m[1..], valid, kind, base);
    }
  }

  /**
   * The validation loop: walking the table, every entry that fails `valid` is unset and
   * reported. What is left is exactly the valid entries, in their order.
   */
  method DropInvalid(m: OMap<Handler>, valid: Handler -> bool, kind: string, base: string)
    returns (kept: OMap<Handler>, warnings: seq<string>)
    requires Wf(m)
    ensures kept == FilterValues(m, valid)
    ensures warnings == Warnings(m, valid, kind, base)
  {
    kept := m;
    warnings := [];
    var i := 0;
    while i < |m|
      invariant 0 <= i <= |m|
      invariant kept == FilterValues(m[..i], valid) + m[i..]
      invariant warnings == Warnings(m[..i], valid, kind, base)
    {
      DropStep(m, i, valid, kind, base);
      if !valid(m[i].1) {
        kept := Remove(kept, m[i].0);
        warnings := warnings + [Warning(kind, base, m[i].1.className)];
      }
      i := i + 1;
    }
    assert m[..|m|] == m;
  }

  /** One step of the validation loop keeps its invariant. */
  lemma DropStep(m: OMap<Handler>, i: nat, valid: Handler -> bool, kind: string, base: string)
    requires Wf(m) && i < |m|
    ensures valid(m[i].1) ==>
              FilterValues(m[..i], valid) + m[i..] == FilterValues(m[..i + 1], valid) + m[i + 1..]
    ensures !valid(m[i].1) ==>
              Remove(FilterValues(m[..i], valid) + m[i..], m[i].0) == FilterValues(m[..i + 1], valid) + m[i + 1..]
    ensures Warnings(m[..i + 1], valid, kind, base) ==
            Warnings(m[..i], valid, kind, base) + (if valid(m[i].1) then [] else [Warning(kind, base, m[i].1.className)])
  {
    var e := m[i];
    assert m[..i + 1] == m[..i] + [e];
    assert m[i..] == [e] + m[i + 1..];
    FilterAppend(m[..i], [e], valid);
    WarningsAppend(m[..i], [e], valid, kind, base);
    assert Warnings([e], valid, kind, base) == (if valid(e.1) then [] else [Warning(kind, base, e.1.className)]);
    if !valid(e.1) {
      WfSplit(m, i);
      FilterNoNewKeys(m[..i], valid, e.0);
      RemoveMiddle(FilterValues(m[..i], valid), e, m[i + 1..]);
    }
  }

  /** After validation every entry left is valid, and an entry is left iff it was valid. */
  lemma ValidationSpec(m: OMap<Handler>, valid: Handler -> bool, k: string)
    requires Wf(m)
    ensures forall e :: e in FilterValues(m, valid) ==> valid(e.1)
    ensures Lookup(FilterValues(m, valid), k) ==
            if Lookup(m, k).Some? && valid(Lookup(m, k).value) then Lookup(m, k) else None
  {
    FilterKept(m, valid);
    FilterLookup(m, valid, k);
  }

  // ---------------------------------------------------------------------------------
  // get_alert

  /** The fields of a post `get_alert` copies. */
  datatype Post = Post(id: int, status: string, date: string, author: string)

  /** An `Alert` object: the empty one built from `null`, or one loaded from a post. */
  datatype Alert =
    | EmptyAlert
    | FromPost(id: int, status: string, date: string, author: string,
             filterAction: Option<string>, filterAuthor: Option<string>, filterContext: Option<string>,
             alertType: Option<string>, alertMeta: OMap<Value>)

  /** `isset( $meta[k] ) ? $meta[k][0] : null`; a key with no values also reads as null. */
  function FirstMeta(meta: OMap<seq<string>>, k: string): (r: Option<string>)
    ensures r.Some? <==> Lookup(meta, k).Some? && |Lookup(meta, k).value| > 0
    ensures r.Some? ==> r.value == Lookup(meta, k).value[0]
  {
    match Lookup(meta, k)
    case None => None
    case Some(vs) => if |vs| > 0 then Some(vs[0]) else None
  }

  /**
   * `get_alert`. `postOf` is `get_post`, `customOf` is `get_post_custom` and
   * `unserialize` is `maybe_unserialize`.
   */
  function GetAlert(postId: Value, postOf: Value -> Post, customOf: Value -> OMap<seq<string>>,
                    unserialize: string -> Value): (a: Alert)
    ensures a.EmptyAlert? <==> !Truthy(postId)
    ensures a.FromPost? ==> a.id == postOf(postId).id && a.status == postOf(postId).status
    ensures a.FromPost? && !HasKey(customOf(postId), "filter_action") ==> a.filterAction.None?
    ensures a.FromPost? && !HasKey(customOf(postId), "filter_author") ==> a.filterAuthor.None?
    ensures a.FromPost? && !HasKey(customOf(postId), "filter_context") ==> a.filterContext.None?
    ensures a.FromPost? && !HasKey(customOf(postId), "alert_type") ==> a.alertType.None?
    ensures a.FromPost? && !HasKey(customOf(postId), "alert_meta") ==> a.alertMeta == []
    ensures a.FromPost? ==> forall vs :: Lookup(customOf(postId), "alert_type") == Some(vs) && |vs| > 0 ==>
                                         a.alertType == Some(vs[0])
    ensures a.FromPost? ==> a.date == postOf(postId).date && a.author == postOf(postId).author
    ensures a.FromPost? ==> && a.filterAction == FirstMeta(customOf(postId), "filter_action")
                            && a.filterAuthor == FirstMeta(customOf(postId), "filter_author")
                            && a.filterContext == FirstMeta(customOf(postId), "filter_context")
                            && a.alertType == FirstMeta(customOf(postId), "alert_type")
    ensures a.FromPost? ==> forall vs :: Lookup(customOf(postId), "alert_meta") == Some(vs) && |vs| > 0 ==>
                                         a.alertMeta == ArrayCast(unserialize(vs[0]))
    ensures a.FromPost? && Lookup(customOf(postId), "alert_meta") == Some([]) ==> a.alertMeta == []
  {
    if !Truthy(postId) then EmptyAlert
    else
      var post := postOf(postId);
      var meta := customOf(postId);
      FromPost(post.id, post.status, post.date, post.author,
             FirstMeta(meta, "filter_action"), FirstMeta(meta, "filter_author"),
             FirstMeta(meta, "filter_context"), FirstMeta(meta, "alert_type"),
             if HasKey(meta, "alert_meta")
             then ArrayCast(match FirstMeta(meta, "alert_meta")
                            case None => Null
                            case Some(s) => unserialize(s))
             else [])
  }

  // ---------------------------------------------------------------------------------
  // check_records

  /** The alerts `check_records` sends, in query order: those whose predicate matched. */
  function Matching(alerts: seq<Alert>, recordId: int, recordarr: Value,
                    checkRecord: (Alert, int, Value) -> bool): seq<Alert>
  {
    if alerts == [] then []
    else Matching(alerts[..|alerts| - 1], recordId, recordarr, checkRecord)
         + (if checkRecord(alerts[|alerts| - 1], recordId, recordarr) then [alerts[|alerts| - 1]] else [])
  }

  lemma MatchingSnoc(alerts: seq<Alert>, a: Alert, recordId: int, recordarr: Value,
                     checkRecord: (Alert, int, Value) -> bool)
    ensures Matching(alerts + [a], recordId, recordarr, checkRecord) ==
            Matching(alerts, recordId, recordarr, checkRecord) + (if checkRecord(a, recordId, recordarr) then [a] else [])
  {
    assert (alerts + [a])[..|alerts|] == alerts;
  }

  lemma {:induction false} MatchingSpec(alerts: seq<Alert>, recordId: int, recordarr: Value,
                                        checkRecord: (Alert, int, Value) -> bool)
    ensures forall a :: a in Matching(alerts, recordId, recordarr, checkRecord) <==>
                          a in alerts && checkRecord(a, recordId, recordarr)
  {
    if alerts != [] {
      var init := alerts[..|alerts| - 1];
      MatchingSpec(init, recordId, recordarr, checkRecord);
      assert alerts == init + [alerts[|alerts| - 1]];
    }
  }

  /** One more alert checked: the first `|checked| + 1` posts are each read with `get_alert`. */
  lemma CheckedStep(checked: seq<Alert>, enabled: seq<Value>,
                    postOf: Value -> Post, customOf: Value -> OMap<seq<string>>, unserialize: string -> Value)
    requires |checked| < |enabled|
    requires forall j :: 0 <= j < |checked| ==> checked[j] == GetAlert(enabled[j], postOf, customOf, unserialize)
    ensures var next := checked + [GetAlert(enabled[|checked|], postOf, customOf, unserialize)];
            forall j :: 0 <= j < |next| ==> next[j] == GetAlert(enabled[j], postOf, customOf, unserialize)
  {
  }

  /**
   * `check_records`. `enabled` are the IDs of the `wp_stream_enabled` alert posts in query
   * order. It returns the record untouched, every alert it checked (one per post, in order)
   * and the alerts `send_alert` was called for.
   */
  method CheckRecords(recordId: int, recordarr: Value, enabled: seq<Value>,
                      postOf: Value -> Post, customOf: Value -> OMap<seq<string>>, unserialize: string -> Value,
                      checkRecord: (Alert, int, Value) -> bool)
    returns (r: Value, checked: seq<Alert>, sent: seq<Alert>)
    ensures r == recordarr
    ensures |checked| == |enabled|
    ensures forall i :: 0 <= i < |enabled| ==> checked[i] == GetAlert(enabled[i], postOf, customOf, unserialize)
    ensures sent == Matching(checked, recordId, recordarr, checkRecord)
  {
    checked, sent := [], [];
    var i := 0;
    while i < |enabled|
      invariant 0 <= i <= |enabled| && |checked| == i
      invariant forall j :: 0 <= j < i ==> checked[j] == GetAlert(enabled[j], postOf, customOf, unserialize)
      invariant sent == Matching(checked, recordId, recordarr, checkRecord)
    {
      var alert := GetAlert(enabled[i], postOf, customOf, unserialize);
      CheckedStep(checked, enabled, postOf, customOf, unserialize);
      MatchingSnoc(checked, alert, recordId, recordarr, checkRecord);
      checked := checked + [alert];
      if checkRecord(alert, recordId, recordarr) {
        sent := sent + [alert];
      }
      i := i + 1;
    }
    r := recordarr;
  }

  // ---------------------------------------------------------------------------------
  // Update messages and the save guards

  const AlertUpdated: string := "Alert updated."

  /** The eleven messages for the alerts post type, indexed 0 to 10. */
  function AlertMessages(): (ms: OMap<Value>)
    ensures |ms| == 11 && Wf(ms)
    ensures forall i :: 0 <= i < 11 ==> ms[i].0 == NatStr(i)
    ensures forall i :: 0 <= i < 11 ==>
              ms[i].1 == Str(if i == 1 || i == 4 || i == 6 || i == 7 || i == 10 then AlertUpdated else "")
  {
    [("0", Str("")), ("1", Str(AlertUpdated)), ("2", Str("")), ("3", Str("")), ("4", Str(AlertUpdated)),
     ("5", Str("")), ("6", Str(AlertUpdated)), ("7", Str(AlertUpdated)), ("8", Str("")), ("9", Str("")),
     ("10", Str(AlertUpdated))]
  }

  /** `filter_update_messages`: only the alerts post type's entry is (re)written. */
  function FilterUpdateMessages(messages: OMap<Value>): (r: OMap<Value>)
    ensures forall k :: Lookup(r, k) == if k == PostType then Some(Arr(AlertMessages())) else Lookup(messages, k)
  {
    forall k ensures Lookup(Put(messages, PostType, Arr(AlertMessages())), k) ==
                     if k == PostType then Some(Arr(AlertMessages())) else Lookup(messages, k) {
      PutLookup(messages, PostType, Arr(AlertMessages()), k);
    }
    Put(messages, PostType, Arr(AlertMessages()))
  }

  /** The guards of `save_post_info`: the data reaches the settings form only past all four. */
  predicate SaveGuardsPass(data: OMap<Value>, nonceOk: bool, canEdit: bool)
  {
    && nonceOk
    && Lookup(data, "post_type") == Some(Str(PostType))
    && Lookup(data, "post_status") != Some(Str("auto-draft"))
    && canEdit
  }

  /**
   * `save_post_info`. `nonceOk` is the nonce check, `canEdit` the `edit_post` capability
   * check, and `process` everything that happens to an alert post past the guards.
   */
  function SavePostInfo(data: OMap<Value>, nonceOk: bool, canEdit: bool,
                        process: OMap<Value> -> OMap<Value>): (r: OMap<Value>)
    ensures !SaveGuardsPass(data, nonceOk, canEdit) ==> r == data
    ensures SaveGuardsPass(data, nonceOk, canEdit) ==> r == process(data)
  {
    if !nonceOk then data
    else if Lookup(data, "post_type") != Some(Str(PostType))
         || Lookup(data, "post_status") == Some(Str("auto-draft")) then data
    else if !canEdit then data
    else process(data)
  }

  /** A non-alert post, or an auto-draft alert, passes through unchanged. */
  lemma OtherPostsUntouched(data: OMap<Value>, nonceOk: bool, canEdit: bool, process: OMap<Value> -> OMap<Value>)
    requires Lookup(data, "post_type") != Some(Str(PostType)) || Lookup(data, "post_status") == Some(Str("auto-draft"))
    ensures SavePostInfo(data, nonceOk, canEdit, process) == data
  {
  }

  /** What the `wp_stream_alert_types` or `wp_stream_alert_triggers` filter returns for a table. */
  function Filtered(filter: OMap<Handler> -> OMap<Handler>, classes: OMap<Handler>): OMap<Handler>
  {
    filter(classes)
  }

  /**
   * The shared body of `load_alert_types` and `load_alert_triggers`: the built-in loop,
   * the filter, then the validation loop.
   */
  method LoadTable(prefix: string, slugs: seq<string>, classOf: string -> Option<Handler>,
                   filter: OMap<Handler> -> OMap<Handler>, valid: Handler -> bool, kind: string, base: string)
    returns (kept: OMap<Handler>, warnings: seq<string>)
    requires Wf(Filtered(filter, Builtins(prefix, slugs, classOf)))
    ensures kept == FilterValues(Filtered(filter, Builtins(prefix, slugs, classOf)), valid)
    ensures warnings == Warnings(Filtered(filter, Builtins(prefix, slugs, classOf)), valid, kind, base)
  {
    var classes := LoadBuiltins(prefix, slugs, classOf);
    kept, warnings := DropInvalid(filter(classes), valid, kind, base);
  }

  // ---------------------------------------------------------------------------------
  // The registry object

  /** The `trigger_error` wording of an alert type that fails validation. */
  const TypeKind: string := "alert_type"
  const TypeBase: string := "WP_Stream\\Alert_Type"
  /** The `trigger_error` wording of an alert trigger that fails validation. */
  const TriggerKind: string := "alert_trigger"
  const TriggerBase: string := "WP_Stream\\Alert_Trigger"

  /** `WP_Stream\Alerts` with its two handler tables and the warnings it raised. */
  class AlertRegistry {
    var alertTypes: OMap<Handler>
    var alertTriggers: OMap<Handler>
    /** Every `trigger_error` message, oldest first. */
    var errors: seq<string>

    /** The constructor loads the types, then the triggers. */
    constructor (classOf: string -> Option<Handler>,
                 typesFilter: OMap<Handler> -> OMap<Handler>, triggersFilter: OMap<Handler> -> OMap<Handler>)
      requires Wf(Filtered(typesFilter, Builtins(TypePrefix, TypeSlugs, classOf)))
      requires Wf(Filtered(triggersFilter, Builtins(TriggerPrefix, TriggerSlugs, classOf)))
      ensures alertTypes == FilterValues(Filtered(typesFilter, Builtins(TypePrefix, TypeSlugs, classOf)), IsValidAlertType)
      ensures alertTriggers == FilterValues(Filtered(triggersFilter, Builtins(TriggerPrefix, TriggerSlugs, classOf)), IsValidAlertTrigger)
      ensures errors == Warnings(Filtered(typesFilter, Builtins(TypePrefix, TypeSlugs, classOf)), IsValidAlertType, TypeKind, TypeBase)
                        + Warnings(Filtered(triggersFilter, Builtins(TriggerPrefix, TriggerSlugs, classOf)), IsValidAlertTrigger, TriggerKind, TriggerBase)
    {
      var keptTypes, typeWarnings :=
        LoadTable(TypePrefix, TypeSlugs, classOf, typesFilter, IsValidAlertType, TypeKind, TypeBase);
      var keptTriggers, triggerWarnings :=
        LoadTable(TriggerPrefix, TriggerSlugs, classOf, triggersFilter, IsValidAlertTrigger, TriggerKind, TriggerBase);
      alertTypes, alertTriggers, errors := keptTypes, keptTriggers, typeWarnings + triggerWarnings;
    }

    /** `load_alert_types`. */
    method LoadAlertTypes(classOf: string -> Option<Handler>, typesFilter: OMap<Handler> -> OMap<Handler>)
      requires Wf(Filtered(typesFilter, Builtins(TypePrefix, TypeSlugs, classOf)))
      modifies this`alertTypes, this`errors
      ensures alertTypes == FilterValues(Filtered(typesFilter, Builtins(TypePrefix, TypeSlugs, classOf)), IsValidAlertType)
      ensures errors == old(errors) + Warnings(Filtered(typesFilter, Builtins(TypePrefix, TypeSlugs, classOf)), IsValidAlertType, TypeKind, TypeBase)
    {
      var warnings;
      alertTypes, warnings :=
        LoadTable(TypePrefix, TypeSlugs, classOf, typesFilter, IsValidAlertType, TypeKind, TypeBase);
      errors := errors + warnings;
    }

    /** `load_alert_triggers`. */
    method LoadAlertTriggers(classOf: string -> Option<Handler>, triggersFilter: OMap<Handler> -> OMap<Handler>)
      requires Wf(Filtered(triggersFilter, Builtins(TriggerPrefix, TriggerSlugs, classOf)))
      modifies this`alertTriggers, this`errors
      ensures alertTriggers == FilterValues(Filtered(triggersFilter, Builtins(TriggerPrefix, TriggerSlugs, classOf)), IsValidAlertTrigger)
      ensures errors == old(errors) + Warnings(Filtered(triggersFilter, Builtins(TriggerPrefix, TriggerSlugs, classOf)), IsValidAlertTrigger, TriggerKind, TriggerBase)
    {
      var warnings;
      alertTriggers, warnings :=
        LoadTable(TriggerPrefix, TriggerSlugs, classOf, triggersFilter, IsValidAlertTrigger, TriggerKind, TriggerBase);
      errors := errors + warnings;
    }
  }
}
