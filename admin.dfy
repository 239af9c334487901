/**
 * The namespaced `WP_Stream\Admin` class: the capability filters, the two AJAX
 * handlers behind the author filter, the author record rows and the admin body class.
 */
module Admin {
  import opened Php
  import Caps
  import Settings

  /** `$this->view_cap`. */
  const ViewCap: string := "view_stream"
  /** `$this->preload_authors_max`. */
  const PreloadAuthorsMax: nat := 50
  /** `$this->admin_body_class`. */
  const AdminBodyClass: string := "wp_stream_screen"
  /** `$this->records_page_slug`. */
  const RecordsPageSlug: string := "wp_stream"
  /** The display name of the pseudo-user that stands for WP-CLI. */
  const PseudoUser: string := "WP-CLI"

  const UndefinedViewCap: string := "Undefined constant WP_Stream\\Admin::VIEW_CAP"

  // ---------------------------------------------------------------------------------
  // Capability filters

  /**
   * `filter_user_caps` as written: the class defines no `VIEW_CAP` constant, and the
   * list `array( self::VIEW_CAP )` is built on every call, so every call stops with an
   * error before the loop runs.
   */
  function FilterUserCapsAsWritten(allcaps: OMap<Value>, caps: seq<string>, userRoles: seq<string>,
                                   userCapKeys: seq<string>, isRole: string -> bool,
                                   options: OMap<Value>): (r: Result<OMap<Value>>)
    ensures r.Fatal?
  {
    Fatal(UndefinedViewCap)
  }

  /**
   * `filter_user_caps` with the view capability read from `$this->view_cap`: the roles
   * of the user are collected and the shared grant loop runs over `$caps`.
   */
  method FilterUserCaps(allcaps: OMap<Value>, caps: seq<string>, userRoles: seq<string>,
                        userCapKeys: seq<string>, isRole: string -> bool, options: OMap<Value>)
    returns (r: OMap<Value>)
    ensures r == Caps.UserCaps(allcaps, caps, [ViewCap], Caps.UserRoles(userRoles, userCapKeys, isRole),
                               Caps.CanView(options))
  {
    var roles := Caps.UserRoles(userRoles, userCapKeys, isRole);
    r := Caps.FilterUserCaps(allcaps, caps, [ViewCap], roles, Caps.CanView(options));
  }

  /**
   * With the built-in defaults only administrators may view, so an administrator
   * asking for `view_stream` is granted it, while the code as written stops instead.
   */
  lemma AdministratorGrantLost(siteRoles: OMap<string>, allcaps: OMap<Value>)
    ensures var options := Settings.Defaults(Settings.BuiltinSections(siteRoles));
            Caps.UserCaps(allcaps, [ViewCap], [ViewCap], Caps.UserRoles(["administrator"], [], _ => false),
                          Caps.CanView(options)) == Put(allcaps, ViewCap, Bool(true))
    ensures FilterUserCapsAsWritten(allcaps, [ViewCap], ["administrator"], [], _ => false,
                                    Settings.Defaults(Settings.BuiltinSections(siteRoles))).Fatal?
  {
    var options := Settings.Defaults(Settings.BuiltinSections(siteRoles));
    DefaultRoleAccess(siteRoles, "administrator");
    var roles := Caps.UserRoles(["administrator"], [], _ => false);
    assert "administrator" in roles;
    assert Caps.AnyCanView(roles, Caps.CanView(options));
  }

  /** With the built-in defaults exactly the `administrator` role may view. */
  lemma DefaultRoleAccess(siteRoles: OMap<string>, role: string)
    ensures Caps.RoleCanView(Settings.Defaults(Settings.BuiltinSections(siteRoles)), role) <==> role == "administrator"
  {
    Settings.BuiltinDefaults(siteRoles);
    var m := Settings.Defaults(Settings.BuiltinSections(siteRoles));
    var key := "general_role_access";
    assert m[0].0 == "general_log_activity_for" && m[1].0 == key;
    assert m[0].0 != key by { assert m[0].0[8] != key[8]; }
    assert HasKey(m, key);
    assert IndexOf(m, key) == 1;
    assert Lookup(m, key) == Some(Settings.ListValue(["administrator"]));
    var es := Settings.ListValue(["administrator"]).entries;
    assert es == [("0", Str("administrator"))];
    Caps.SingleRoleAccess(m, "0", "administrator", role);
  }

  /** `_filter_role_caps` as written: it too builds `array( self::VIEW_CAP )` first. */
  function FilterRoleCapsAsWritten(allcaps: OMap<Value>, cap: string, role: string,
                                   options: OMap<Value>): (r: Result<OMap<Value>>)
    ensures r.Fatal?
  {
    Fatal(UndefinedViewCap)
  }

  /**
   * `_filter_role_caps` with the view capability read from `$this->view_cap`: only
   * `view_stream` can be added, and only for a role that may view; every other entry is
   * returned as it came.
   */
  function FilterRoleCaps(allcaps: OMap<Value>, cap: string, role: string, options: OMap<Value>): (r: OMap<Value>)
    ensures forall k :: Lookup(r, k) ==
              if k == cap && cap == ViewCap && Caps.RoleCanView(options, role) then Some(Bool(true))
              else Lookup(allcaps, k)
    ensures cap != ViewCap ==> r == allcaps
  {
    Caps.RoleCaps(allcaps, cap, role, [ViewCap], Caps.CanView(options))
  }

  // ---------------------------------------------------------------------------------
  // ajax_filters and get_filter_value_by_id

  /**
   * The list `ajax_filters` searches: the pseudo-user under key 0, then the site's
   * users (their display names, in `get_users` order) under keys 1, 2, ...
   */
  function Candidates(users: seq<string>): (c: OMap<string>)
    ensures |c| == |users| + 1 && c[0] == ("0", PseudoUser)
    ensures forall i :: 0 <= i < |users| ==> c[i + 1] == (NatStr(i + 1), users[i])
  {
    [("0", PseudoUser)] + seq(|users|, i requires 0 <= i < |users| => (NatStr(i + 1), users[i]))
  }

  /** The search test: the lowercased display name contains the lowercased query. */
  function Matches(q: string): ((string, string)) -> bool
  {
    (e: (string, string)) => Contains(ToLower(e.1), ToLower(q))
  }

  /** `array_slice` on integer keys: the entries keep their order and are renumbered. */
  function Renumber(s: OMap<string>): (r: OMap<string>)
    ensures |r| == |s|
    ensures forall i :: 0 <= i < |s| ==> r[i] == (NatStr(i), s[i].1)
  {
    seq(|s|, i requires 0 <= i < |s| => (NatStr(i), s[i].1))
  }

  /** The users `ajax_filters` hands on for the author filter, keyed as PHP keys them. */
  function AjaxAuthors(users: seq<string>, q: string): (r: OMap<string>)
    ensures |r| <= PreloadAuthorsMax
    ensures forall e :: e in r ==> Contains(ToLower(e.1), ToLower(q))
  {
    var found := FilterEntries(Candidates(users), Matches(q));
    FoundMatch(Candidates(users), q);
    if |found| > PreloadAuthorsMax then
      RenumberedMatch(found, PreloadAuthorsMax, q);
      Renumber(found[..PreloadAuthorsMax])
    else found
  }

  /**
   * At most 50 users come back, every one of them matching the query, in the order
   * of the search list. When no more than 50 match, exactly the matching entries come
   * back with their keys; otherwise the first 50 matches, renumbered from 0.
   */
  lemma AjaxAuthorsSpec(users: seq<string>, q: string)
    ensures var found := FilterEntries(Candidates(users), Matches(q));
            |found| <= PreloadAuthorsMax ==>
              forall e :: e in AjaxAuthors(users, q) <==> e in Candidates(users) && Contains(ToLower(e.1), ToLower(q))
    ensures var found := FilterEntries(Candidates(users), Matches(q));
            |found| > PreloadAuthorsMax ==>
              |AjaxAuthors(users, q)| == PreloadAuthorsMax &&
              forall i :: 0 <= i < PreloadAuthorsMax ==> AjaxAuthors(users, q)[i] == (NatStr(i), found[i].1)
  {
    FoundMatch(Candidates(users), q);
  }

  /** The search keeps exactly the candidates whose name matches. */
  lemma FoundMatch(c: OMap<string>, q: string)
    ensures forall e :: e in FilterEntries(c, Matches(q)) <==> e in c && Contains(ToLower(e.1), ToLower(q))
  {
    FilterEntriesSpec(c, Matches(q));
    forall e ensures Matches(q)(e) == Contains(ToLower(e.1), ToLower(q)) { }
  }

  /** Renumbering a prefix of matching entries keeps every name, so every name still matches. */
  lemma RenumberedMatch(found: OMap<string>, n: nat, q: string)
    requires n <= |found|
    requires forall e :: e in found ==> Contains(ToLower(e.1), ToLower(q))
    ensures forall e :: e in Renumber(found[..n]) ==> Contains(ToLower(e.1), ToLower(q))
  {
    var r := Renumber(found[..n]);
    forall e | e in r ensures Contains(ToLower(e.1), ToLower(q)) {
      var i :| 0 <= i < |r| && r[i] == e;
      assert found[i] in found && e.1 == found[i].1;
    }
  }

  /** The pseudo-user is listed first whenever its name matches, as the empty query does. */
  lemma PseudoUserFirst(users: seq<string>, q: string)
    requires Contains(ToLower(PseudoUser), ToLower(q))
    ensures |AjaxAuthors(users, q)| > 0 && AjaxAuthors(users, q)[0] == ("0", PseudoUser)
  {
    var c := Candidates(users);
    assert c == [c[0]] + c[1..];
    assert FilterEntries(c, Matches(q)) == [c[0]] + FilterEntries(c[1..], Matches(q));
  }

  /** The empty query matches every name. */
  lemma EmptyQueryMatchesAll(users: seq<string>)
    ensures FilterEntries(Candidates(users), Matches("")) == Candidates(users)
  {
    var c := Candidates(users);
    forall e | e in c ensures Matches("")(e) {
      assert MatchAt(ToLower(e.1), ToLower(""), 0);
    }
    FilterEntriesAll(c, Matches(""));
  }

  /**
   * `get_filter_value_by_id`: the label the author filter shows for an ID. `userName`
   * stands for `get_userdata`, giving the display name of an existing user.
   */
  function FilterValueById(filter: Option<string>, id: Option<string>,
                           userName: string -> Option<string>): (v: string)
    ensures filter != Some("author") ==> v == ""
    ensures filter == Some("author") && id == Some("0") ==> v == PseudoUser
    ensures filter == Some("author") && id != Some("0") ==>
              v == if id.Some? && userName(id.value).Some? then userName(id.value).value else ""
  {
    if filter == Some("author") then
      if id == Some("0") then PseudoUser
      else if id.None? then ""
      else match userName(id.value)
        case None => ""
        case Some(name) => name
    else ""
  }

  /** The label shown for ID 0 is the name the search lists under key 0. */
  lemma PseudoUserLabelAgrees(users: seq<string>, q: string, userName: string -> Option<string>)
    requires Contains(ToLower(PseudoUser), ToLower(q))
    ensures var r := AjaxAuthors(users, q);
            |r| > 0 && r[0] == ("0", FilterValueById(Some("author"), Some(r[0].0), userName))
  {
    PseudoUserFirst(users, q);
  }

  // ---------------------------------------------------------------------------------
  // get_authors_record_meta

  /** One row of the author filter's data; `caption` is the row's `label`. */
  datatype AuthorRecord = AuthorRecord(text: string, id: string, caption: string, icon: string,
                                       title: string, disabled: Value)

  /** `isset( $args['disabled'] ) ? $args['disabled'] : null`. */
  function DisabledOf(args: Value): (d: Value)
    ensures !args.Arr? ==> d == Null
    ensures args.Arr? && !HasKey(args.entries, "disabled") ==> d == Null
    ensures args.Arr? && HasKey(args.entries, "disabled") ==> Some(d) == Lookup(args.entries, "disabled")
  {
    if args.Arr? && HasKey(args.entries, "disabled") then args.entries[IndexOf(args.entries, "disabled")].1
    else Null
  }

  /**
   * An argument of `get_authors_record_meta`: an array, as the list table passes, or an
   * object, as `ajax_filters` passes (a `WP_User`, or the `stdClass` pseudo-user). Neither
   * object class implements `ArrayAccess`.
   */
  datatype AuthorArg = ArrayArg(args: Value) | ObjectArg

  /** The users `ajax_filters` selects, each as the object it is. */
  function AsObjects(users: OMap<string>): (authors: OMap<AuthorArg>)
    ensures |authors| == |users|
    ensures forall i :: 0 <= i < |users| ==> authors[i] == (users[i].0, ObjectArg)
  {
    seq(|users|, i requires 0 <= i < |users| => (users[i].0, ObjectArg))
  }

  /** The row stored for the author `id`. */
  function AuthorRow(id: string, disabled: Value, displayName: string -> string, avatar: string -> string): AuthorRecord
  {
    AuthorRecord(displayName(id), id, displayName(id), avatar(id), "", disabled)
  }

  /**
   * `isset( $args['disabled'] ) ? $args['disabled'] : null` as written: reading a
   * dimension of an object without `ArrayAccess` raises an `Error`.
   */
  function DisabledAsWritten(arg: AuthorArg): (r: Result<Value>)
    ensures r.Fatal? <==> arg.ObjectArg?
    ensures arg.ArrayArg? ==> r == Ok(DisabledOf(arg.args))
  {
    match arg
    case ArrayArg(args) => Ok(DisabledOf(args))
    case ObjectArg => Fatal("Cannot use object as array")
  }

  /**
   * `get_authors_record_meta` as written. The keys of a PHP array are distinct, so each
   * assignment appends a row; the first object argument stops the loop.
   */
  function AuthorsRecordMetaAsWritten(authors: OMap<AuthorArg>, displayName: string -> string,
                                      avatar: string -> string): (r: Result<OMap<AuthorRecord>>)
    ensures r.Fatal? <==> exists i :: 0 <= i < |authors| && authors[i].1.ObjectArg?
    ensures r.Ok? ==> Keys(r.value) == Keys(authors)
    ensures r.Ok? ==> forall i :: 0 <= i < |authors| ==>
              r.value[i].1 == AuthorRow(authors[i].0, DisabledOf(authors[i].1.args), displayName, avatar)
  {
    if authors == [] then Ok([])
    else match DisabledAsWritten(authors[0].1)
      case Fatal(m) => Fatal(m)
      case Ok(d) =>
        var rest := AuthorsRecordMetaAsWritten(authors[1..], displayName, avatar);
        assert forall i :: 0 < i < |authors| ==> authors[i] == authors[1..][i - 1];
        if rest.Fatal? then rest
        else
          var r := [(authors[0].0, AuthorRow(authors[0].0, d, displayName, avatar))] + rest.value;
          assert Keys(r) == Keys(authors) by {
            assert forall i :: 0 < i < |r| ==> r[i] == rest.value[i - 1];
          }
          Ok(r)
  }

  /**
   * As written, `ajax_filters` gets no author rows: any non-empty selection holds an
   * object, and the empty query always selects the pseudo-user.
   */
  lemma {:induction false} AjaxAuthorsRecordMetaFails(users: seq<string>, q: string,
                                                      displayName: string -> string, avatar: string -> string)
    ensures |AjaxAuthors(users, q)| > 0 ==>
              AuthorsRecordMetaAsWritten(AsObjects(AjaxAuthors(users, q)), displayName, avatar).Fatal?
    ensures AuthorsRecordMetaAsWritten(AsObjects(AjaxAuthors(users, "")), displayName, avatar).Fatal?
  {
    if |AjaxAuthors(users, q)| > 0 {
      assert AsObjects(AjaxAuthors(users, q))[0].1.ObjectArg?;
    }
    assert MatchAt(ToLower(PseudoUser), ToLower(""), 0);
    PseudoUserFirst(users, "");
    assert AsObjects(AjaxAuthors(users, ""))[0].1.ObjectArg?;
  }

  /** The intended `disabled` of an argument: an object has no such entry and reads as null. */
  function DisabledOfArg(arg: AuthorArg): Value
  {
    match arg
    case ArrayArg(args) => DisabledOf(args)
    case ObjectArg => Null
  }

  /**
   * `get_authors_record_meta`: one row per author, under the author's own key. The
   * display name and the 32-pixel avatar come from the `Author` class, given here as
   * `displayName` and `avatar`. An object argument has no `disabled`, so its row's is
   * null; wherever the written loop does not stop, the rows are the ones it builds.
   */
  method GetAuthorsRecordMeta(authors: OMap<AuthorArg>, displayName: string -> string, avatar: string -> string)
    returns (records: OMap<AuthorRecord>)
    requires Wf(authors)
    ensures Keys(records) == Keys(authors)
    ensures forall i :: 0 <= i < |authors| ==>
              records[i].1 == AuthorRow(authors[i].0, DisabledOfArg(authors[i].1), displayName, avatar)
    ensures forall i :: 0 <= i < |authors| && authors[i].1.ObjectArg? ==> records[i].1.disabled == Null
    ensures forall i :: 0 <= i < |authors| && authors[i].1.ArrayArg? ==>
              records[i].1.disabled == DisabledOf(authors[i].1.args)
    ensures AuthorsRecordMetaAsWritten(authors, displayName, avatar).Ok? ==>
              records == AuthorsRecordMetaAsWritten(authors, displayName, avatar).value
  {
    records := [];
    var i := 0;
    while i < |authors|
      invariant 0 <= i <= |authors| && |records| == i
      invariant forall j :: 0 <= j < i ==> records[j].0 == authors[j].0
      invariant forall j :: 0 <= j < i ==>
                  records[j].1 == AuthorRow(authors[j].0, DisabledOfArg(authors[j].1), displayName, avatar)
    {
      var id := authors[i].0;
      var row := AuthorRow(id, DisabledOfArg(authors[i].1), displayName, avatar);
      assert !HasKey(records, id);
      records := Put(records, id, row);
      i := i + 1;
    }
    var w := AuthorsRecordMetaAsWritten(authors, displayName, avatar);
    if w.Ok? {
      assert |w.value| == |records|;
      forall j | 0 <= j < |records| ensures records[j] == w.value[j] {
        assert Keys(w.value)[j] == Keys(authors)[j];
      }
    }
  }

  // ---------------------------------------------------------------------------------
  // admin_body_class

  /** `is_stream_screen`: in the admin, on a page whose slug contains `wp_stream`. */
  predicate IsStreamScreen(isAdmin: bool, page: Option<string>)
    ensures IsStreamScreen(isAdmin, page) ==> isAdmin && page.Some?
    ensures isAdmin && page.Some? && RecordsPageSlug <= page.value ==> IsStreamScreen(isAdmin, page)
  {
    assert page.Some? && RecordsPageSlug <= page.value ==> MatchAt(page.value, RecordsPageSlug, 0);
    isAdmin && page.Some? && Contains(page.value, RecordsPageSlug)
  }

  predicate KeyChar(c: char)
  {
    'a' <= c <= 'z' || '0' <= c <= '9' || c == '_' || c == '-'
  }

  /** `sanitize_key`: lowercase, then drop every character outside `[a-z0-9_-]`. */
  function SanitizeKey(s: string): (k: string)
    ensures |k| <= |s|
    ensures forall i :: 0 <= i < |k| ==> KeyChar(k[i])
  {
    if s == [] then []
    else (if KeyChar(LowerChar(s[0])) then [LowerChar(s[0])] else []) + SanitizeKey(s[1..])
  }

  /** The classes added on Stream screens: the body class and the sanitised page. */
  function StreamClasses(isAdmin: bool, page: Option<string>): seq<string>
  {
    if IsStreamScreen(isAdmin, page) then [AdminBodyClass, SanitizeKey(page.value)] else []
  }

  /** `array_map( 'trim', ... )`. */
  function TrimAll(s: seq<string>): (r: seq<string>)
    ensures |r| == |s| && forall i :: 0 <= i < |s| ==> r[i] == Trim(s[i])
  {
    if s == [] then [] else [Trim(s[0])] + TrimAll(s[1..])
  }

  /**
   * `admin_body_class`: `sprintf( '%s %s ', $classes, implode( ' ', ... ) )`. The input
   * classes come back first, followed by a space, and the result ends with a space. Off
   * Stream screens nothing else is added; on them, the words between are exactly
   * `wp_stream_screen` and the sanitised page.
   */
  function BodyClass(classes: string, isAdmin: bool, page: Option<string>): (r: string)
    ensures |r| >= |classes| + 2 && r[..|classes| + 1] == classes + " " && r[|r| - 1] == ' '
    ensures !IsStreamScreen(isAdmin, page) ==> r == classes + "  "
    ensures IsStreamScreen(isAdmin, page) ==>
              Split(r[|classes| + 1..|r| - 1], ' ') == [AdminBodyClass, SanitizeKey(page.value)]
  {
    var mid := Join(TrimAll(StreamClasses(isAdmin, page)), " ");
    var r := classes + " " + mid + " ";
    assert r[|classes| + 1..|r| - 1] == mid;
    StreamClassWords(isAdmin, page);
    r
  }

  /** On a Stream screen the joined classes split back into `wp_stream_screen` and the sanitised page. */
  lemma StreamClassWords(isAdmin: bool, page: Option<string>)
    ensures IsStreamScreen(isAdmin, page) ==>
              Split(Join(TrimAll(StreamClasses(isAdmin, page)), " "), ' ') == [AdminBodyClass, SanitizeKey(page.value)]
  {
    if IsStreamScreen(isAdmin, page) {
      var k := SanitizeKey(page.value);
      TrimKey(AdminBodyClass);
      TrimKey(k);
      var parts := [AdminBodyClass, k];
      assert TrimAll(parts) == parts;
      assert forall i :: 0 <= i < |parts| ==> ' ' !in parts[i];
      SplitJoin(parts, ' ');
    }
  }

  /** A string of key characters has nothing for `trim` to remove. */
  lemma TrimKey(s: string)
    requires forall i :: 0 <= i < |s| ==> KeyChar(s[i])
    ensures Trim(s) == s
  {
    assert TrimLeft(s) == s;
  }
}
