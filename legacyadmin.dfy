/**
 * The older static `WP_Stream_Admin` class: its capability filters, which know three
 * view capabilities, the success notices, the Stream-screen test and the active-tab
 * rule of the settings page. Its `get_filter_value_by_id` is the same switch as the
 * namespaced class's and is modelled once, as `Admin.FilterValueById`.
 */
module LegacyAdmin {
  import opened Php
  import Caps

  /** `self::VIEW_CAP`. */
  const ViewCap: string := "view_stream"
  /** `self::RECORDS_PAGE_SLUG`. */
  const RecordsPageSlug: string := "wp_stream"
  /** `self::SETTINGS_PAGE_SLUG`. */
  const SettingsPageSlug: string := "wp_stream_settings"
  /** `self::ACCOUNT_PAGE_SLUG`. */
  const AccountPageSlug: string := "wp_stream_account"

  // ---------------------------------------------------------------------------------
  // Capability filters

  /**
   * The view capabilities: Stream's own, then those of the notifications and the
   * reports components, whose constants are given as parameters.
   */
  function ViewCaps(notificationsCap: string, reportsCap: string): seq<string>
  {
    [ViewCap, notificationsCap, reportsCap]
  }

  /** `_filter_user_caps`: the user's roles are collected and the grant loop runs over `$caps`. */
  method FilterUserCaps(allcaps: OMap<Value>, caps: seq<string>, userRoles: seq<string>,
                        userCapKeys: seq<string>, isRole: string -> bool, options: OMap<Value>,
                        notificationsCap: string, reportsCap: string)
    returns (r: OMap<Value>)
    ensures r == Caps.UserCaps(allcaps, caps, ViewCaps(notificationsCap, reportsCap),
                               Caps.UserRoles(userRoles, userCapKeys, isRole), Caps.CanView(options))
  {
    var roles := Caps.UserRoles(userRoles, userCapKeys, isRole);
    r := Caps.FilterUserCaps(allcaps, caps, ViewCaps(notificationsCap, reportsCap), roles, Caps.CanView(options));
  }

  /**
   * Of the three view capabilities, only the first one `$caps` asks for is granted, and
   * only when some role may view; every other entry of `$allcaps` is unchanged.
   */
  lemma UserCapsSpec(allcaps: OMap<Value>, caps: seq<string>, roles: seq<string>, options: OMap<Value>,
                     notificationsCap: string, reportsCap: string, k: string)
    requires Wf(allcaps)
    ensures var v := ViewCaps(notificationsCap, reportsCap);
            Lookup(Caps.UserCaps(allcaps, caps, v, roles, Caps.CanView(options)), k) ==
              if Caps.AnyCanView(roles, Caps.CanView(options)) &&
                 exists i :: 0 <= i < |caps| && caps[i] == k && k in v && forall j :: 0 <= j < i ==> caps[j] !in v
              then Some(Bool(true))
              else Lookup(allcaps, k)
  {
    var v := ViewCaps(notificationsCap, reportsCap);
    Caps.GrantedSpec(caps, v, roles, Caps.CanView(options));
    Caps.UserCapsSpec(allcaps, caps, v, roles, Caps.CanView(options), k);
  }

  /** `_filter_role_caps`: `cap` is added iff it is one of the three view capabilities and the role may view. */
  function FilterRoleCaps(allcaps: OMap<Value>, cap: string, role: string, options: OMap<Value>,
                          notificationsCap: string, reportsCap: string): (r: OMap<Value>)
    ensures forall k :: Lookup(r, k) ==
              if k == cap && (cap == ViewCap || cap == notificationsCap || cap == reportsCap) &&
                 Caps.RoleCanView(options, role)
              then Some(Bool(true))
              else Lookup(allcaps, k)
  {
    Caps.RoleCaps(allcaps, cap, role, ViewCaps(notificationsCap, reportsCap), Caps.CanView(options))
  }

  // ---------------------------------------------------------------------------------
  // admin_notices

  const ResetNotice: string := "All site settings have been successfully reset."
  const ConnectedNotice: string :=
    "<strong>You have successfully connected to Stream!</strong></p><p>"
    + "Check back here regularly to see a history of the changes being made to this site."

  /**
   * `admin_notices`: the notice shown for the `message` query argument, if any.
   * `showMigrateNotice` is what `WP_Stream_Migrate::show_migrate_notice` answers.
   */
  function AdminNotice(message: Option<string>, showMigrateNotice: bool): (notice: Option<string>)
    ensures notice.Some? <==> message == Some("settings_reset") || (message == Some("connected") && !showMigrateNotice)
    ensures message == Some("settings_reset") ==> notice == Some(ResetNotice)
    ensures message == Some("connected") && !showMigrateNotice ==> notice == Some(ConnectedNotice)
  {
    var n: Value :=
      if message == Some("settings_reset") then Str(ResetNotice)
      else if message == Some("connected") && !showMigrateNotice then Str(ConnectedNotice)
      else Bool(false);
    if Truthy(n) && n.Str? then Some(n.s) else None
  }

  // ---------------------------------------------------------------------------------
  // is_stream_screen

  /**
   * `is_stream_screen`: in the admin, and either the page slug contains `wp_stream` or
   * the post type being edited is the notifications post type.
   */
  predicate IsStreamScreen(isAdmin: bool, page: Option<string>, typenow: Option<string>, notificationsPostType: string)
    ensures IsStreamScreen(isAdmin, page, typenow, notificationsPostType) ==> isAdmin
    ensures isAdmin && page.Some? && RecordsPageSlug <= page.value ==>
              IsStreamScreen(isAdmin, page, typenow, notificationsPostType)
    ensures isAdmin && typenow == Some(notificationsPostType) ==>
              IsStreamScreen(isAdmin, page, typenow, notificationsPostType)
  {
    assert page.Some? && RecordsPageSlug <= page.value ==> MatchAt(page.value, RecordsPageSlug, 0);
    isAdmin && ((page.Some? && Contains(page.value, RecordsPageSlug)) || typenow == Some(notificationsPostType))
  }

  /** The settings and account pages are Stream screens in the admin, as their slugs start with `wp_stream`. */
  lemma StreamScreens(typenow: Option<string>, notificationsPostType: string)
    ensures IsStreamScreen(true, Some(SettingsPageSlug), typenow, notificationsPostType)
    ensures IsStreamScreen(true, Some(AccountPageSlug), typenow, notificationsPostType)
  {
    assert RecordsPageSlug <= SettingsPageSlug;
    assert RecordsPageSlug <= AccountPageSlug;
  }

  // ---------------------------------------------------------------------------------
  // The active tab of render_settings_page

  /** `! $active_tab`: no tab, or one PHP reads as false. */
  predicate NoTab(tab: Option<string>)
  {
    tab.None? || EmptyStr(tab.value)
  }

  /**
   * The loop over the sections with its counter `$i`: a section is active when it is the
   * first and no tab is given, or when its name is the tab.
   */
  method ActiveSections(sections: seq<string>, tab: Option<string>) returns (active: seq<bool>)
    ensures |active| == |sections|
    ensures forall k :: 0 <= k < |sections| ==> active[k] == ((k == 0 && NoTab(tab)) || tab == Some(sections[k]))
    ensures tab.None? ==> forall k :: 0 <= k < |sections| ==> (active[k] <==> k == 0)
    ensures tab.Some? && !EmptyStr(tab.value) ==> forall k :: 0 <= k < |sections| ==> (active[k] <==> sections[k] == tab.value)
    ensures tab.Some? && !EmptyStr(tab.value) && tab.value !in sections ==> forall k :: 0 <= k < |sections| ==> !active[k]
    ensures tab.Some? && !EmptyStr(tab.value) && (forall i, j :: 0 <= i < j < |sections| ==> sections[i] != sections[j]) ==>
              forall i, j :: 0 <= i < |sections| && 0 <= j < |sections| && active[i] && active[j] ==> i == j
  {
    active := [];
    var i := 0;
    while |active| < |sections|
      invariant |active| <= |sections| && i == |active|
      invariant forall k :: 0 <= k < i ==> active[k] == ((k == 0 && NoTab(tab)) || tab == Some(sections[k]))
    {
      var section := sections[i];
      i := i + 1;
      var isActive := (1 == i && NoTab(tab)) || tab == Some(section);
      active := active + [isActive];
    }
  }
}
