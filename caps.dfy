/**
 * The capability rules both generations of the Stream admin class share: the roles a
 * user's capability check looks at, and the `$allcaps` updates of the `user_has_cap`
 * and `role_has_cap` filters. The two classes differ only in their list of view
 * capabilities and in where the allowed roles are read from.
 */
module Caps {
  import opened Php

  /** `array_filter` on a list of strings: the values `keep` accepts, in order. */
  function Select(s: seq<string>, keep: string -> bool): (r: seq<string>)
    ensures forall x :: x in r <==> x in s && keep(x)
  {
    if s == [] then [] else (if keep(s[0]) then [s[0]] else []) + Select(s[1..], keep)
  }

  /** `array_unique`: the first occurrence of every value, in order. */
  function Unique(s: seq<string>): (r: seq<string>)
    ensures forall x :: x in r <==> x in s
    ensures forall i, j :: 0 <= i < j < |r| ==> r[i] != r[j]
    ensures |s| > 0 ==> |r| > 0 && r[0] == s[0]
  {
    if s == [] then []
    else
      var init := s[..|s| - 1];
      assert s == init + [s[|s| - 1]];
      var u := Unique(init);
      if s[|s| - 1] in u then u else u + [s[|s| - 1]]
  }

  /**
   * The roles `filter_user_caps` checks: the user's roles, then the keys of the user's
   * own capability table that name a role, each once.
   */
  function UserRoles(roles: seq<string>, capKeys: seq<string>, isRole: string -> bool): (r: seq<string>)
    ensures forall x :: x in r <==> x in roles || (x in capKeys && isRole(x))
    ensures forall i, j :: 0 <= i < j < |r| ==> r[i] != r[j]
  {
    Unique(roles + Select(capKeys, isRole))
  }

  /** The position of the first of `caps` that is a view capability. */
  function FirstViewCap(caps: seq<string>, viewCaps: seq<string>): (r: Option<nat>)
    ensures r.None? <==> forall i :: 0 <= i < |caps| ==> caps[i] !in viewCaps
    ensures r.Some? ==> r.value < |caps| && caps[r.value] in viewCaps
    ensures r.Some? ==> forall i :: 0 <= i < r.value ==> caps[i] !in viewCaps
  {
    if caps == [] then None
    else if caps[0] in viewCaps then Some(0)
    else match FirstViewCap(caps[1..], viewCaps)
      case None => None
      case Some(i) => Some(i + 1)
  }

  /**
   * `role_can_view`: the role is listed in the `general_role_access` option. A missing
   * or non-array option lets no role view (as PHP 7's `in_array`, which then returns
   * null with a warning).
   */
  predicate RoleCanView(options: OMap<Value>, role: string)
    ensures RoleCanView(options, role) ==> Lookup(options, "general_role_access").Some?
    ensures forall v :: Lookup(options, "general_role_access") == Some(v) && !v.Arr? ==> !RoleCanView(options, role)
    ensures forall es :: Lookup(options, "general_role_access") == Some(Arr(es)) ==>
              (RoleCanView(options, role) <==> exists e: (string, Value) :: e in es && e.1 == Str(role))
  {
    var v := Lookup(options, "general_role_access");
    v.Some? && v.value.Arr? && exists i :: 0 <= i < |v.value.entries| && v.value.entries[i].1 == Str(role)
  }

  /** With a one-entry `general_role_access`, exactly the role it lists may view. */
  lemma SingleRoleAccess(options: OMap<Value>, key: string, listed: string, role: string)
    requires Lookup(options, "general_role_access") == Some(Arr([(key, Str(listed))]))
    ensures RoleCanView(options, role) <==> role == listed
  {
    var es := [(key, Str(listed))];
    assert RoleCanView(options, role) <==> es[0].1 == Str(role);
  }

  /** `role_can_view` as the test the grant loop calls. */
  function CanView(options: OMap<Value>): string -> bool
  {
    (role: string) => RoleCanView(options, role)
  }

  /** Some role in `roles` may view Stream. */
  predicate AnyCanView(roles: seq<string>, canView: string -> bool)
  {
    exists r :: r in roles && canView(r)
  }

  /** The capability `filter_user_caps` grants, if any. */
  function Granted(caps: seq<string>, viewCaps: seq<string>, roles: seq<string>, canView: string -> bool): Option<string>
  {
    match FirstViewCap(caps, viewCaps)
    case Some(i) => if AnyCanView(roles, canView) then Some(caps[i]) else None
    case None => None
  }

  /** What the `user_has_cap` filter returns. */
  function UserCaps(allcaps: OMap<Value>, caps: seq<string>, viewCaps: seq<string>, roles: seq<string>,
                    canView: string -> bool): OMap<Value>
  {
    match Granted(caps, viewCaps, roles, canView)
    case Some(cap) => Put(allcaps, cap, Bool(true))
    case None => allcaps
  }

  /**
   * The nested loop of `filter_user_caps`: for each requested capability that is a view
   * capability, the first role that may view grants it and ends both loops (`break 2`).
   */
  method FilterUserCaps(allcaps: OMap<Value>, caps: seq<string>, viewCaps: seq<string>, roles: seq<string>,
                        canView: string -> bool)
    returns (r: OMap<Value>)
    ensures r == UserCaps(allcaps, caps, viewCaps, roles, canView)
  {
    r := allcaps;
    var i := 0;
    label scan:
    while i < |caps|
      invariant 0 <= i <= |caps|
      invariant r == allcaps
      invariant forall j :: 0 <= j < i ==> caps[j] !in viewCaps || !AnyCanView(roles, canView)
    {
      if caps[i] in viewCaps {
        var k := 0;
        while k < |roles|
          invariant 0 <= k <= |roles|
          invariant forall j :: 0 <= j < k ==> !canView(roles[j])
        {
          if canView(roles[k]) {
            assert AnyCanView(roles, canView);
            r := Put(r, caps[i], Bool(true));
            break scan;
          }
          k := k + 1;
        }
      }
      i := i + 1;
    }
  }

  /**
   * At most one capability is granted: the first requested one that is a view
   * capability, and only when some role may view.
   */
  lemma GrantedSpec(caps: seq<string>, viewCaps: seq<string>, roles: seq<string>, canView: string -> bool)
    ensures Granted(caps, viewCaps, roles, canView).Some? <==>
              AnyCanView(roles, canView) && exists i :: 0 <= i < |caps| && caps[i] in viewCaps
    ensures forall c :: Granted(caps, viewCaps, roles, canView) == Some(c) <==>
              AnyCanView(roles, canView) &&
              exists i :: 0 <= i < |caps| && caps[i] == c && c in viewCaps &&
                          forall j :: 0 <= j < i ==> caps[j] !in viewCaps
  {
    var f := FirstViewCap(caps, viewCaps);
    forall c ensures Granted(caps, viewCaps, roles, canView) == Some(c) <==>
              AnyCanView(roles, canView) &&
              exists i :: 0 <= i < |caps| && caps[i] == c && c in viewCaps &&
                          forall j :: 0 <= j < i ==> caps[j] !in viewCaps
    {
      if AnyCanView(roles, canView) && exists i :: 0 <= i < |caps| && caps[i] == c && c in viewCaps &&
                                                     forall j :: 0 <= j < i ==> caps[j] !in viewCaps {
        var i :| 0 <= i < |caps| && caps[i] == c && c in viewCaps && forall j :: 0 <= j < i ==> caps[j] !in viewCaps;
        assert f.Some?;
        assert f.value == i;
      }
    }
  }

  /** Only the granted capability changes, to true; every other entry keeps its value. */
  lemma UserCapsSpec(allcaps: OMap<Value>, caps: seq<string>, viewCaps: seq<string>, roles: seq<string>,
                     canView: string -> bool, k: string)
    requires Wf(allcaps)
    ensures Wf(UserCaps(allcaps, caps, viewCaps, roles, canView))
    ensures Lookup(UserCaps(allcaps, caps, viewCaps, roles, canView), k) ==
              if Granted(caps, viewCaps, roles, canView) == Some(k) then Some(Bool(true)) else Lookup(allcaps, k)
  {
    match Granted(caps, viewCaps, roles, canView)
    case Some(cap) =>
      PutWf(allcaps, cap, Bool(true));
      PutLookup(allcaps, cap, Bool(true), k);
    case None =>
  }

  /**
   * What the `role_has_cap` filter returns for one role and one capability: `cap`
   * becomes true iff it is a view capability and the role may view; otherwise the table
   * comes back unchanged, and no other entry ever changes.
   */
  function RoleCaps(allcaps: OMap<Value>, cap: string, role: string, viewCaps: seq<string>,
                    canView: string -> bool): (r: OMap<Value>)
    ensures !(cap in viewCaps && canView(role)) ==> r == allcaps
    ensures forall k :: Lookup(r, k) ==
              if k == cap && cap in viewCaps && canView(role) then Some(Bool(true)) else Lookup(allcaps, k)
  {
    if cap in viewCaps && canView(role) then
      assert forall k :: Lookup(Put(allcaps, cap, Bool(true)), k) ==
                         if k == cap then Some(Bool(true)) else Lookup(allcaps, k) by {
        forall k ensures Lookup(Put(allcaps, cap, Bool(true)), k) ==
                         if k == cap then Some(Bool(true)) else Lookup(allcaps, k) {
          PutLookup(allcaps, cap, Bool(true), k);
        }
      }
      Put(allcaps, cap, Bool(true))
    else allcaps
  }
}
