/**
 * `WP_Stream_Connectors`: the gates that decide whether an action is logged at all
 * (by user, by role, by IP, by setting column), and `load`, which registers the
 * connectors and fills the label tables the list screens read.
 *
 * The settings lookup `WP_Stream_Settings::get_excluded_by_key` is the input
 * `excludedBy`; a connector class is known only through `classOf`, which gives its
 * static `$name`, its labels and whether it extends `WP_Stream_Connector`.
 */
module Connectors {
  import opened Php

  /** The `$user` argument of the user gate. */
  datatype UserArg = NotAUser | WpUser(id: int, roles: seq<string>)

  /** `is_logging_enabled( $column, $value )`: the value is not in that column's exclusions. */
  predicate IsLoggingEnabled(excludedBy: string -> seq<string>, column: string, value: string)
    ensures IsLoggingEnabled(excludedBy, column, value) <==>
              forall i :: 0 <= i < |excludedBy(column)| ==> excludedBy(column)[i] != value
  {
    value !in excludedBy(column)
  }

  /** `array_intersect( $a, $b )`: the entries of `a` that occur in `b`. */
  function Intersect(a: seq<string>, b: seq<string>): (r: seq<string>)
    ensures |r| == 0 <==> forall x :: x in a ==> x !in b
  {
    if a == [] then []
    else (if a[0] in b then [a[0]] else []) + Intersect(a[1..], b)
  }

  /**
   * `is_logging_enabled_for_user`, with the `wp_stream_record_log` filter left as the
   * identity. The author check compares the ID with the excluded list's strings.
   */
  function IsLoggingEnabledForUser(user: UserArg, excludedBy: string -> seq<string>): (b: bool)
    ensures user.NotAUser? || user.id == 0 ==> b
    ensures user.WpUser? && user.id != 0 ==>
              (b <==> IntStr(user.id) !in excludedBy("authors") &&
                      forall r :: r in user.roles ==> r !in excludedBy("roles"))
  {
    match user
    case NotAUser => true
    case WpUser(id, roles) =>
      var byAuthor := if IntStr(id) in excludedBy("authors") then false else true;
      var byRole := if |Intersect(roles, excludedBy("roles"))| != 0 then false else byAuthor;
      if id == 0 then true else byRole
  }

  /**
   * `is_logging_enabled_for_ip`, with the `wp_stream_ip_record_log` filter left as the
   * identity. `ip` is the address after `FILTER_VALIDATE_IP`: `None` when it is not valid.
   */
  function IsLoggingEnabledForIp(ip: Option<string>, excludedBy: string -> seq<string>): (b: bool)
    ensures ip.None? ==> b
    ensures ip.Some? ==> (b <==> IsLoggingEnabled(excludedBy, "ip_addresses", ip.value))
  {
    if ip.None? then true else IsLoggingEnabled(excludedBy, "ip_addresses", ip.value)
  }

  /** An excluded role disables logging for every real user that has it. */
  lemma ExcludedRoleDisables(user: UserArg, excludedBy: string -> seq<string>, role: string)
    requires user.WpUser? && user.id != 0 && role in user.roles && role in excludedBy("roles")
    ensures !IsLoggingEnabledForUser(user, excludedBy)
  {
  }

  /** A valid IP is logged iff the `ip_addresses` column does not list it. */
  lemma IpGate(ip: string, excludedBy: string -> seq<string>)
    ensures IsLoggingEnabledForIp(Some(ip), excludedBy) <==> ip !in excludedBy("ip_addresses")
  {
  }

  // ---------------------------------------------------------------------------------
  // Registration

  /** The static side of a connector class. */
  datatype ConnectorClass = ConnectorClass(
    name: string,
    connectorLabel: string,
    /** `is_subclass_of( $connector, 'WP_Stream_Connector' )`. */
    isSubclass: bool,
    contextLabels: OMap<string>,
    actionLabels: OMap<string>)

  const BuiltinSlugs: seq<string> :=
    ["comments", "editor", "installer", "media", "menus", "posts", "settings", "taxonomies", "users", "widgets"]

  /** The built-in class names; the network admin also gets the blogs connector. */
  function BuiltinClasses(networkAdmin: bool): (cs: seq<string>)
    ensures |cs| == if networkAdmin then 11 else 10
  {
    var slugs := if networkAdmin then BuiltinSlugs + ["blogs"] else BuiltinSlugs;
    seq(|slugs|, i requires 0 <= i < |slugs| => "WP_Stream_Connector_" + slugs[i])
  }

  /** `$exclude_all_connector`: the current user or the current IP is not to be logged. */
  predicate ExcludeAll(user: UserArg, ip: Option<string>, excludedBy: string -> seq<string>)
  {
    !IsLoggingEnabledForUser(user, excludedBy) || !IsLoggingEnabledForIp(ip, excludedBy)
  }

  function Notice(className: string): string
  {
    className + " class wasn't loaded because it doesn't extends the WP_Stream_Connector class."
  }

  /** The values of an array (`in_array` searches them). */
  function Values(m: OMap<string>): seq<string>
  {
    if m == [] then [] else [m[0].1] + Values(m[1..])
  }

  /** Everything `load` writes, as one value. */
  datatype Tables = Tables(
    contexts: OMap<OMap<string>>,
    connectorLabels: OMap<string>,
    contextLabels: OMap<string>,
    actionLabels: OMap<string>,
    notices: seq<string>,
    /** The class names whose `register()` ran, in order. */
    registered: seq<string>)

  /** The first loop of `load`: every connector's label under its name. */
  function NameLabels(cns: seq<string>, classOf: string -> ConnectorClass): (es: OMap<string>)
    ensures |es| == |cns|
    ensures forall i :: 0 <= i < |cns| ==> es[i] == (classOf(cns[i]).name, classOf(cns[i]).connectorLabel)
  {
    if cns == [] then []
    else NameLabels(cns[..|cns| - 1], classOf) + [(classOf(cns[|cns| - 1]).name, classOf(cns[|cns| - 1]).connectorLabel)]
  }

  /** A connector that passes both checks of the second loop. */
  predicate Eligible(c: ConnectorClass, excluded: seq<string>)
  {
    c.isSubclass && c.name !in excluded
  }

  /** One pass of the second loop of `load`. */
  function Step(t: Tables, cn: string, c: ConnectorClass, excluded: seq<string>, excludeAll: bool): Tables
  {
    if !c.isSubclass then t.(notices := t.notices + [Notice(cn)])
    else
      var labels := if c.name !in Values(t.connectorLabels) then Put(t.connectorLabels, c.name, c.connectorLabel)
                    else t.connectorLabels;
      if c.name in excluded then t.(connectorLabels := labels)
      else
        Tables(Put(t.contexts, c.name, c.contextLabels),
               labels,
               PutAll(t.contextLabels, c.contextLabels),
               PutAll(t.actionLabels, c.actionLabels),
               t.notices,
               if excludeAll then t.registered else t.registered + [cn])
  }

  /** The second loop of `load` over the connector class names. */
  function Register(t: Tables, cns: seq<string>, classOf: string -> ConnectorClass,
                    excluded: seq<string>, excludeAll: bool): Tables
  {
    if cns == [] then t
    else Step(Register(t, cns[..|cns| - 1], classOf, excluded, excludeAll),
              cns[|cns| - 1], classOf(cns[|cns| - 1]), excluded, excludeAll)
  }

  /** The class names of the connectors the second loop accepts, in order. */
  function EligibleClasses(cns: seq<string>, classOf: string -> ConnectorClass, excluded: seq<string>): seq<string>
  {
    if cns == [] then []
    else EligibleClasses(cns[..|cns| - 1], classOf, excluded)
         + (if Eligible(classOf(cns[|cns| - 1]), excluded) then [cns[|cns| - 1]] else [])
  }

  /** One notice per class name that is not a connector, in order. */
  function Notices(cns: seq<string>, classOf: string -> ConnectorClass): seq<string>
  {
    if cns == [] then []
    else Notices(cns[..|cns| - 1], classOf) + (if classOf(cns[|cns| - 1]).isSubclass then [] else [Notice(cns[|cns| - 1])])
  }

  /** The action labels of the accepted connectors, concatenated in order. */
  function MergedActions(cns: seq<string>, classOf: string -> ConnectorClass, excluded: seq<string>): OMap<string>
  {
    if cns == [] then []
    else MergedActions(cns[..|cns| - 1], classOf, excluded)
         + (if Eligible(classOf(cns[|cns| - 1]), excluded) then classOf(cns[|cns| - 1]).actionLabels else [])
  }

  /** The context labels of the accepted connectors, concatenated in order. */
  function MergedContexts(cns: seq<string>, classOf: string -> ConnectorClass, excluded: seq<string>): OMap<string>
  {
    if cns == [] then []
    else MergedContexts(cns[..|cns| - 1], classOf, excluded)
         + (if Eligible(classOf(cns[|cns| - 1]), excluded) then classOf(cns[|cns| - 1]).contextLabels else [])
  }

  /**
   * Registration: `register()` runs for exactly the accepted connectors, in order, and
   * for none when user or IP logging is off.
   */
  lemma {:induction false} RegisteredSpec(t: Tables, cns: seq<string>, classOf: string -> ConnectorClass,
                                          excluded: seq<string>, excludeAll: bool)
    ensures Register(t, cns, classOf, excluded, excludeAll).registered ==
            t.registered + (if excludeAll then [] else EligibleClasses(cns, classOf, excluded))
  {
    if cns != [] {
      var init := cns[..|cns| - 1];
      RegisteredSpec(t, init, classOf, excluded, excludeAll);
      StepBookkeeping(Register(t, init, classOf, excluded, excludeAll), cns[|cns| - 1], classOf(cns[|cns| - 1]),
                      excluded, excludeAll);
    }
  }

  /** One admin notice per class that does not extend `WP_Stream_Connector`, in order. */
  lemma {:induction false} NoticesSpec(t: Tables, cns: seq<string>, classOf: string -> ConnectorClass,
                                       excluded: seq<string>, excludeAll: bool)
    ensures Register(t, cns, classOf, excluded, excludeAll).notices == t.notices + Notices(cns, classOf)
  {
    if cns != [] {
      var init := cns[..|cns| - 1];
      NoticesSpec(t, init, classOf, excluded, excludeAll);
      StepBookkeeping(Register(t, init, classOf, excluded, excludeAll), cns[|cns| - 1], classOf(cns[|cns| - 1]),
                      excluded, excludeAll);
    }
  }

  /** An accepted class was a connector and was not excluded. */
  lemma {:induction false} EligibleClassesSpec(cns: seq<string>, classOf: string -> ConnectorClass, excluded: seq<string>)
    ensures forall cn :: cn in EligibleClasses(cns, classOf, excluded) <==> cn in cns && Eligible(classOf(cn), excluded)
  {
    if cns != [] {
      EligibleClassesSpec(cns[..|cns| - 1], classOf, excluded);
      assert cns == cns[..|cns| - 1] + [cns[|cns| - 1]];
    }
  }

  /** What one pass does to the notices and to the registrations. */
  lemma StepBookkeeping(t: Tables, cn: string, c: ConnectorClass, excluded: seq<string>, excludeAll: bool)
    ensures Step(t, cn, c, excluded, excludeAll).notices == t.notices + if c.isSubclass then [] else [Notice(cn)]
    ensures Step(t, cn, c, excluded, excludeAll).registered ==
            t.registered + if Eligible(c, excluded) && !excludeAll then [cn] else []
  {
  }

  /** What one pass does to the merged tables. */
  lemma StepMerges(t: Tables, cn: string, c: ConnectorClass, excluded: seq<string>, excludeAll: bool)
    ensures Step(t, cn, c, excluded, excludeAll).actionLabels ==
            if Eligible(c, excluded) then PutAll(t.actionLabels, c.actionLabels) else t.actionLabels
    ensures Step(t, cn, c, excluded, excludeAll).contextLabels ==
            if Eligible(c, excluded) then PutAll(t.contextLabels, c.contextLabels) else t.contextLabels
    ensures Step(t, cn, c, excluded, excludeAll).contexts ==
            if Eligible(c, excluded) then Put(t.contexts, c.name, c.contextLabels) else t.contexts
  {
  }

  /**
   * The action-label table is the old table with the accepted connectors' labels merged
   * in, in order, so a later connector's label for a slug overrides an earlier one.
   */
  lemma {:induction false} ActionLabelsSpec(t: Tables, cns: seq<string>, classOf: string -> ConnectorClass,
                                            excluded: seq<string>, excludeAll: bool)
    ensures Register(t, cns, classOf, excluded, excludeAll).actionLabels ==
            PutAll(t.actionLabels, MergedActions(cns, classOf, excluded))
  {
    if cns != [] {
      var init := cns[..|cns| - 1];
      var c := classOf(cns[|cns| - 1]);
      ActionLabelsSpec(t, init, classOf, excluded, excludeAll);
      StepMerges(Register(t, init, classOf, excluded, excludeAll), cns[|cns| - 1], c, excluded, excludeAll);
      if Eligible(c, excluded) {
        PutAllConcat(t.actionLabels, MergedActions(init, classOf, excluded), c.actionLabels);
      } else {
        assert MergedActions(cns, classOf, excluded) == MergedActions(init, classOf, excluded) + [];
        assert MergedActions(init, classOf, excluded) + [] == MergedActions(init, classOf, excluded);
      }
    }
  }

  /** The same for the context-label table. */
  lemma {:induction false} ContextLabelsSpec(t: Tables, cns: seq<string>, classOf: string -> ConnectorClass,
                                             excluded: seq<string>, excludeAll: bool)
    ensures Register(t, cns, classOf, excluded, excludeAll).contextLabels ==
            PutAll(t.contextLabels, MergedContexts(cns, classOf, excluded))
  {
    if cns != [] {
      var init := cns[..|cns| - 1];
      var c := classOf(cns[|cns| - 1]);
      ContextLabelsSpec(t, init, classOf, excluded, excludeAll);
      StepMerges(Register(t, init, classOf, excluded, excludeAll), cns[|cns| - 1], c, excluded, excludeAll);
      if Eligible(c, excluded) {
        PutAllConcat(t.contextLabels, MergedContexts(init, classOf, excluded), c.contextLabels);
      } else {
        assert MergedContexts(cns, classOf, excluded) == MergedContexts(init, classOf, excluded) + [];
        assert MergedContexts(init, classOf, excluded) + [] == MergedContexts(init, classOf, excluded);
      }
    }
  }

  /** A slug's merged action label is the one of the last accepted connector that has it. */
  lemma LaterLabelWins(t: Tables, cns: seq<string>, classOf: string -> ConnectorClass,
                       excluded: seq<string>, excludeAll: bool, slug: string)
    ensures Lookup(Register(t, cns, classOf, excluded, excludeAll).actionLabels, slug) ==
            if HasKey(MergedActions(cns, classOf, excluded), slug)
            then Some(LastValue(MergedActions(cns, classOf, excluded), slug))
            else Lookup(t.actionLabels, slug)
  {
    ActionLabelsSpec(t, cns, classOf, excluded, excludeAll);
    PutAllLookup(t.actionLabels, MergedActions(cns, classOf, excluded), slug);
  }

  /** The connector at position `k` is accepted and is named `n`. */
  predicate AcceptedAs(cns: seq<string>, classOf: string -> ConnectorClass, excluded: seq<string>, k: nat, n: string)
    requires k < |cns|
  {
    Eligible(classOf(cns[k]), excluded) && classOf(cns[k]).name == n
  }

  /**
   * The contexts table gains an entry under every accepted connector's name, holding
   * the `get_context_labels()` of the last accepted connector of that name, and is
   * unchanged under any name no accepted connector has.
   */
  lemma {:induction false} ContextsSpec(t: Tables, cns: seq<string>, classOf: string -> ConnectorClass,
                                        excluded: seq<string>, excludeAll: bool, n: string)
    ensures (forall cn :: cn in cns && Eligible(classOf(cn), excluded) ==> classOf(cn).name != n) ==>
              Lookup(Register(t, cns, classOf, excluded, excludeAll).contexts, n) == Lookup(t.contexts, n)
    ensures (exists cn :: cn in cns && Eligible(classOf(cn), excluded) && classOf(cn).name == n) ==>
              HasKey(Register(t, cns, classOf, excluded, excludeAll).contexts, n)
    ensures forall k :: 0 <= k < |cns| && AcceptedAs(cns, classOf, excluded, k, n) &&
                        (forall j :: k < j < |cns| ==> !AcceptedAs(cns, classOf, excluded, j, n)) ==>
              Lookup(Register(t, cns, classOf, excluded, excludeAll).contexts, n) == Some(classOf(cns[k]).contextLabels)
  {
    if cns != [] {
      var init := cns[..|cns| - 1];
      var last := cns[|cns| - 1];
      assert cns == init + [last];
      ContextsSpec(t, init, classOf, excluded, excludeAll, n);
      var r := Register(t, init, classOf, excluded, excludeAll);
      StepMerges(r, last, classOf(last), excluded, excludeAll);
      if Eligible(classOf(last), excluded) {
        PutLookup(r.contexts, classOf(last).name, classOf(last).contextLabels, n);
      }
    }
    forall k | 0 <= k < |cns| && AcceptedAs(cns, classOf, excluded, k, n) &&
               (forall j :: k < j < |cns| ==> !AcceptedAs(cns, classOf, excluded, j, n))
      ensures Lookup(Register(t, cns, classOf, excluded, excludeAll).contexts, n) == Some(classOf(cns[k]).contextLabels)
    {
      LastContextWins(t, cns, classOf, excluded, excludeAll, n, k);
    }
  }

  /**
   * The entry under `n` holds the context labels of the last accepted connector named
   * `n`: a later `$this->contexts[ $connector->name ] = ...` overwrites an earlier one.
   */
  lemma {:induction false} LastContextWins(t: Tables, cns: seq<string>, classOf: string -> ConnectorClass,
                                           excluded: seq<string>, excludeAll: bool, n: string, k: nat)
    requires k < |cns| && AcceptedAs(cns, classOf, excluded, k, n)
    requires forall j :: k < j < |cns| ==> !AcceptedAs(cns, classOf, excluded, j, n)
    ensures Lookup(Register(t, cns, classOf, excluded, excludeAll).contexts, n) == Some(classOf(cns[k]).contextLabels)
  {
    var init := cns[..|cns| - 1];
    var c := classOf(cns[|cns| - 1]);
    var r := Register(t, init, classOf, excluded, excludeAll);
    var after := Register(t, cns, classOf, excluded, excludeAll);
    assert after == Step(r, cns[|cns| - 1], c, excluded, excludeAll);
    StepMerges(r, cns[|cns| - 1], c, excluded, excludeAll);
    if k == |init| {
      PutLookup(r.contexts, c.name, c.contextLabels, n);
    } else {
      assert !AcceptedAs(cns, classOf, excluded, |init|, n);
      forall j | k <= j < |init| ensures AcceptedAs(init, classOf, excluded, j, n) == AcceptedAs(cns, classOf, excluded, j, n) {
        assert init[j] == cns[j];
      }
      LastContextWins(t, init, classOf, excluded, excludeAll, n, k);
      if Eligible(c, excluded) {
        PutLookup(r.contexts, c.name, c.contextLabels, n);
      }
    }
  }

  /** Turning user or IP logging off changes nothing but registration. */
  lemma {:induction false} ExcludeAllKeepsTables(t: Tables, cns: seq<string>, classOf: string -> ConnectorClass,
                                                 excluded: seq<string>)
    ensures Register(t, cns, classOf, excluded, true) ==
            Register(t, cns, classOf, excluded, false).(registered := t.registered)
  {
    if cns != [] {
      ExcludeAllKeepsTables(t, cns[..|cns| - 1], classOf, excluded);
    }
  }

  lemma StepRegister(t: Tables, cns: seq<string>, j: nat, classOf: string -> ConnectorClass,
                     excluded: seq<string>, excludeAll: bool)
    requires j < |cns|
    ensures Register(t, cns[..j + 1], classOf, excluded, excludeAll) ==
            Step(Register(t, cns[..j], classOf, excluded, excludeAll), cns[j], classOf(cns[j]), excluded, excludeAll)
  {
    assert cns[..j + 1][..j] == cns[..j];
  }

  /** `WP_Stream_Connectors` and its static tables. */
  class ConnectorRegistry {
    var connectors: seq<string>
    var contexts: OMap<OMap<string>>
    var connectorLabels: OMap<string>
    var contextLabels: OMap<string>
    var actionLabels: OMap<string>
    var adminNotices: seq<string>
    /** The class names whose `register()` ran, oldest first. */
    var registered: seq<string>

    function State(): Tables
      reads this
    {
      Tables(contexts, connectorLabels, contextLabels, actionLabels, adminNotices, registered)
    }

    /** The static initialisers: empty tables. */
    constructor ()
      ensures connectors == [] && State() == Tables([], [], [], [], [], [])
    {
      connectors, contexts, connectorLabels, contextLabels, actionLabels, adminNotices, registered :=
        [], [], [], [], [], [], [];
    }

    /**
     * `load`. `connectorsFilter` is the `wp_stream_connectors` filter. After the built-in
     * list is filtered, every connector's label is recorded, then the second loop skips
     * non-connectors (with a notice) and excluded connectors, and merges the rest.
     */
    method Load(networkAdmin: bool, user: UserArg, ip: Option<string>, excludedBy: string -> seq<string>,
                connectorsFilter: seq<string> -> seq<string>, classOf: string -> ConnectorClass)
      modifies this
      ensures connectors == connectorsFilter(BuiltinClasses(networkAdmin))
      ensures State() == Register(old(State()).(connectorLabels := PutAll(old(connectorLabels), NameLabels(connectors, classOf))),
                                  connectors, classOf, excludedBy("connectors"), ExcludeAll(user, ip, excludedBy))
    {
      var excludeAll := false;
      if !IsLoggingEnabledForUser(user, excludedBy) {
        excludeAll := true;
      }
      if !IsLoggingEnabledForIp(ip, excludedBy) {
        excludeAll := true;
      }
      connectors := connectorsFilter(BuiltinClasses(networkAdmin));
      RecordLabels(classOf);
      RegisterAll(classOf, excludedBy("connectors"), excludeAll);
    }

    /** The first loop of `load`: `$term_labels['stream_connector'][ $connector::$name ]`. */
    method RecordLabels(classOf: string -> ConnectorClass)
      modifies this`connectorLabels
      ensures connectorLabels == PutAll(old(connectorLabels), NameLabels(connectors, classOf))
    {
      var i := 0;
      while i < |connectors|
        invariant 0 <= i <= |connectors|
        invariant connectorLabels == PutAll(old(connectorLabels), NameLabels(connectors[..i], classOf))
      {
        assert connectors[..i + 1][..i] == connectors[..i];
        var c := classOf(connectors[i]);
        connectorLabels := Put(connectorLabels, c.name, c.connectorLabel);
        i := i + 1;
      }
      assert connectors[..|connectors|] == connectors;
    }

    /** The second loop of `load`. */
    method RegisterAll(classOf: string -> ConnectorClass, excluded: seq<string>, excludeAll: bool)
      modifies this`contexts, this`connectorLabels, this`contextLabels, this`actionLabels,
               this`adminNotices, this`registered
      ensures State() == Register(old(State()), connectors, classOf, excluded, excludeAll)
    {
      var j := 0;
      while j < |connectors|
        invariant 0 <= j <= |connectors|
        invariant State() == Register(old(State()), connectors[..j], classOf, excluded, excludeAll)
      {
        StepRegister(old(State()), connectors, j, classOf, excluded, excludeAll);
        Visit(connectors[j], classOf(connectors[j]), excluded, excludeAll);
        j := j + 1;
      }
      assert connectors[..|connectors|] == connectors;
    }

    /** The body of the second loop for one connector class. */
    method Visit(cn: string, c: ConnectorClass, excluded: seq<string>, excludeAll: bool)
      modifies this`contexts, this`connectorLabels, this`contextLabels, this`actionLabels,
               this`adminNotices, this`registered
      ensures State() == Step(old(State()), cn, c, excluded, excludeAll)
    {
      if !c.isSubclass {
        adminNotices := adminNotices + [Notice(cn)];
        return;
      }
      if c.name !in Values(connectorLabels) {
        connectorLabels := Put(connectorLabels, c.name, c.connectorLabel);
      }
      if c.name in excluded {
        return;
      }
      if !excludeAll {
        registered := registered + [cn];
      }
      contexts := Put(contexts, c.name, c.contextLabels);
      actionLabels := PutAll(actionLabels, c.actionLabels);
      contextLabels := PutAll(contextLabels, c.contextLabels);
    }
  }
}
