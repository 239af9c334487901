/**
 * `WP_Stream_List_Table`: the query arguments taken from the request, the options of
 * the filter drop-downs (`assemble_records`), the map from list column to exclusion
 * setting, term titles, the row action links and the screen-option filter.
 */
module ListTable {
  import opened Php
  import Connectors

  // ---------------------------------------------------------------------------------
  // get_records

  /** The request parameters `get_records` passes on, in order. */
  const AllowedParams: seq<string> := ["connector", "context", "action", "author", "author_role", "object_id",
                                       "search", "date", "date_from", "date_to", "record__in", "blog_id", "ip"]

  /** `$paramval || '0' === $paramval`: any present parameter except the empty string. */
  predicate Copied(v: Option<string>)
  {
    v.Some? && (!EmptyStr(v.value) || v.value == "0")
  }

  /** `if ( ! $x = input ) { $x = fallback; }`: a falsy value (absent, "" or "0") is replaced. */
  function OrDefault(v: Option<string>, fallback: string): (r: string)
    ensures v.Some? && !EmptyStr(v.value) ==> r == v.value
    ensures v.None? || EmptyStr(v.value) ==> r == fallback
  {
    if v.Some? && !EmptyStr(v.value) then v.value else fallback
  }

  /** The copied parameters, in whitelist order. */
  function ParamEntries(params: seq<string>, input: string -> Option<string>): OMap<Value>
  {
    if params == [] then []
    else ParamEntries(params[..|params| - 1], input)
         + (var p := params[|params| - 1]; if Copied(input(p)) then [(p, Str(input(p).value))] else [])
  }

  /**
   * The arguments `get_records` hands to `wp_stream_query`. `input` is
   * `wp_stream_filter_input( INPUT_GET, ... )`, `paged` the page number and `perPage`
   * the `edit_stream_per_page` screen option.
   */
  function QueryArgs(input: string -> Option<string>, paged: int, perPage: int): (args: OMap<Value>)
    ensures forall k :: Lookup(args, k) == QueryArg(input, paged, perPage, k)
  {
    var merged := PutAll(SortArgs(input), ParamEntries(AllowedParams, input));
    var args := Put(Put(merged, "paged", Int(paged)), "records_per_page", Int(perPage));
    assert forall k :: Lookup(args, k) == QueryArg(input, paged, perPage, k) by {
      forall k ensures Lookup(args, k) == QueryArg(input, paged, perPage, k) {
        QueryArgLookup(input, paged, perPage, k);
      }
    }
    args
  }

  /**
   * What the query arguments hold under `k`: `records_per_page` and `paged` as given,
   * `order` and `orderby` defaulting to DESC and ID, a whitelisted parameter iff the
   * request carries a non-empty value for it, and nothing else.
   */
  function QueryArg(input: string -> Option<string>, paged: int, perPage: int, k: string): Option<Value>
  {
    if k == "records_per_page" then Some(Int(perPage))
    else if k == "paged" then Some(Int(paged))
    else if k == "order" then Some(Str(OrDefault(input("order"), "DESC")))
    else if k == "orderby" then Some(Str(OrDefault(input("orderby"), "ID")))
    else if k in AllowedParams && Copied(input(k)) then Some(Str(input(k).value))
    else None
  }

  /** One more whitelisted parameter: it is assigned iff `Copied` accepts it. */
  lemma ParamStep(head: OMap<Value>, params: seq<string>, i: nat, input: string -> Option<string>)
    requires i < |params|
    ensures PutAll(head, ParamEntries(params[..i + 1], input))
         == if Copied(input(params[i])) then Put(PutAll(head, ParamEntries(params[..i], input)), params[i], Str(input(params[i]).value))
            else PutAll(head, ParamEntries(params[..i], input))
  {
    assert params[..i + 1][..i] == params[..i];
    var tail := if Copied(input(params[i])) then [(params[i], Str(input(params[i]).value))] else [];
    PutAllSnoc(head, ParamEntries(params[..i], input), tail);
  }

  /** The two sort entries land in that order in the empty array. */
  lemma SortPuts(input: string -> Option<string>, o: string, ob: string)
    requires o == OrDefault(input("order"), "DESC") && ob == OrDefault(input("orderby"), "ID")
    ensures Put(Put([], "order", Str(o)), "orderby", Str(ob)) == SortArgs(input)
  {
    var a: OMap<Value> := [("order", Str(o))];
    assert Keys(a) == ["order"];
  }

  /** `get_records` up to the query. */
  method GetRecords(input: string -> Option<string>, paged: int, perPage: int) returns (args: OMap<Value>)
    ensures args == QueryArgs(input, paged, perPage)
  {
    args := [];
    var order := input("order");
    var o := if order.Some? && !EmptyStr(order.value) then order.value else "DESC";
    var orderby := input("orderby");
    var ob := if orderby.Some? && !EmptyStr(orderby.value) then orderby.value else "ID";
    SortPuts(input, o, ob);
    args := Put(args, "order", Str(o));
    args := Put(args, "orderby", Str(ob));
    ghost var head := args;
    var params := AllowedParams;
    var i := 0;
    while i < |params|
      invariant 0 <= i <= |params|
      invariant args == PutAll(head, ParamEntries(params[..i], input))
    {
      var param := params[i];
      var paramval := input(param);
      ParamStep(head, params, i, input);
      if Copied(paramval) {
        args := Put(args, param, Str(paramval.value));
      }
      i := i + 1;
    }
    assert params[..i] == params;
    args := Put(args, "paged", Int(paged));
    args := Put(args, "records_per_page", Int(perPage));
  }

  /** Each copied parameter is the entry `Copied` selects: present and at that parameter. */
  lemma {:induction false} ParamEntriesSpec(params: seq<string>, input: string -> Option<string>, k: string)
    ensures HasKey(ParamEntries(params, input), k) ==> k in params && Copied(input(k))
    ensures k in params && Copied(input(k)) ==>
              HasKey(ParamEntries(params, input), k) && LastValue(ParamEntries(params, input), k) == Str(input(k).value)
  {
    if params != [] {
      var init, p := params[..|params| - 1], params[|params| - 1];
      ParamEntriesSpec(init, input, k);
      var tail := if Copied(input(p)) then [(p, Str(input(p).value))] else [];
      KeysAppend(ParamEntries(init, input), tail);
      assert params == init + [p];
      if p != k && HasKey(ParamEntries(init, input), k) {
        assert Keys(tail) == if Copied(input(p)) then [p] else [];
        LastValueAppend(ParamEntries(init, input), tail, k);
      }
    }
  }

  /** The `order` and `orderby` entries `get_records` starts from. */
  function SortArgs(input: string -> Option<string>): OMap<Value>
  {
    [("order", Str(OrDefault(input("order"), "DESC"))), ("orderby", Str(OrDefault(input("orderby"), "ID")))]
  }

  /** The four fixed keys are never request parameters of the whitelist. */
  lemma FixedKeysNotParams(input: string -> Option<string>, x: string)
    requires x in ["order", "orderby", "paged", "records_per_page"]
    ensures !HasKey(ParamEntries(AllowedParams, input), x)
  {
    ParamEntriesSpec(AllowedParams, input, x);
  }

  /** Before the paging entries: the sort entries, then the copied parameters. */
  lemma MergedArgs(input: string -> Option<string>, k: string)
    ensures var merged := PutAll(SortArgs(input), ParamEntries(AllowedParams, input));
            Lookup(merged, k) == if k == "order" then Some(Str(OrDefault(input("order"), "DESC")))
                                 else if k == "orderby" then Some(Str(OrDefault(input("orderby"), "ID")))
                                 else if k in AllowedParams && Copied(input(k)) then Some(Str(input(k).value))
                                 else None
  {
    var head, es := SortArgs(input), ParamEntries(AllowedParams, input);
    assert Keys(head) == ["order", "orderby"];
    ParamEntriesSpec(AllowedParams, input, k);
    PutAllLookup(head, es, k);
    if k == "order" || k == "orderby" { FixedKeysNotParams(input, k); }
  }

  /** One key of the query arguments. */
  lemma QueryArgLookup(input: string -> Option<string>, paged: int, perPage: int, k: string)
    ensures Lookup(Put(Put(PutAll(SortArgs(input), ParamEntries(AllowedParams, input)), "paged", Int(paged)),
                       "records_per_page", Int(perPage)), k) == QueryArg(input, paged, perPage, k)
  {
    var merged := PutAll(SortArgs(input), ParamEntries(AllowedParams, input));
    MergedArgs(input, k);
    PutLookup(merged, "paged", Int(paged), k);
    PutLookup(Put(merged, "paged", Int(paged)), "records_per_page", Int(perPage), k);
  }

  // ---------------------------------------------------------------------------------
  // Small lookups

  /** `get_column_excluded_setting_key`; `None` is the `false` of an unknown column. */
  function GetColumnExcludedSettingKey(column: string): (key: Option<string>)
    ensures key.Some? <==> column in ["connector", "context", "action", "ip", "author"]
  {
    match column
    case "connector" => Some("connectors")
    case "context" => Some("contexts")
    case "action" => Some("action")
    case "ip" => Some("ip_addresses")
    case "author" => Some("authors_and_roles")
    case _ => None
  }

  /** Different columns never share an exclusion setting. */
  lemma SettingKeyInjective(a: string, b: string)
    requires GetColumnExcludedSettingKey(a).Some? && GetColumnExcludedSettingKey(a) == GetColumnExcludedSettingKey(b)
    ensures a == b
  {
  }

  /** The connector registry's label tables as `$term_labels`. */
  function TermLabels(t: Connectors.Tables): OMap<OMap<string>>
  {
    [("stream_connector", t.connectorLabels), ("stream_context", t.contextLabels), ("stream_action", t.actionLabels)]
  }

  /** `get_term_title`: the label of `term` in the `stream_<type>` table, or `term` itself. */
  function GetTermTitle(termLabels: OMap<OMap<string>>, term: string, termType: string): (title: string)
    ensures Lookup(termLabels, "stream_" + termType).None? ==> title == term
  {
    match Lookup(termLabels, "stream_" + termType)
    case None => term
    case Some(labels) =>
      match Lookup(labels, term)
      case Some(l) => l
      case None => term
  }

  /** The label of `term` in one table, or `term` when it has none. */
  function LabelOr(labels: OMap<string>, term: string): string
  {
    if HasKey(labels, term) then Lookup(labels, term).value else term
  }

  /** Against the registry's tables, a term's title is its registered label, or the term itself. */
  lemma TermTitleOfRegistry(t: Connectors.Tables, term: string)
    ensures GetTermTitle(TermLabels(t), term, "connector") == LabelOr(t.connectorLabels, term)
    ensures GetTermTitle(TermLabels(t), term, "context") == LabelOr(t.contextLabels, term)
    ensures GetTermTitle(TermLabels(t), term, "action") == LabelOr(t.actionLabels, term)
    ensures GetTermTitle(TermLabels(t), term, "author") == term
  {
    var tl := TermLabels(t);
    assert Keys(tl) == ["stream_connector", "stream_context", "stream_action"];
    assert "stream_" + "connector" == "stream_connector";
    assert "stream_" + "context" == "stream_context";
    assert "stream_" + "action" == "stream_action";
    var sa := "stream_" + "author";
    assert |sa| == 13 && sa[8] == 'u' && "stream_action"[8] == 'c';
    assert sa != "stream_connector" && sa != "stream_context" && sa != "stream_action";
    assert sa !in Keys(tl);
  }

  /** `set_screen_option`: the value is kept for `edit_stream_per_page` only. */
  function SetScreenOption(dummy: Value, option: string, value: Value): (r: Value)
    ensures option == "edit_stream_per_page" ==> r == value
    ensures option != "edit_stream_per_page" ==> r == dummy
  {
    if option == "edit_stream_per_page" then value else dummy
  }

  // ---------------------------------------------------------------------------------
  // get_action_links

  /** `<span><a href="%s" class="action-link">%s</a></span>` for one title → href entry. */
  function ActionLinkHtml(title: string, href: Value): string
  {
    "<span><a href=\"" + ToStr(href) + "\" class=\"action-link\">" + title + "</a></span>"
  }

  /** How many links a filtered link table contributes. */
  function CountOf(links: Value): nat
  {
    if Truthy(links) && links.Arr? then |links.entries| else 0
  }

  /** One `<span>` per title → href entry of the action-link table. */
  function ActionLinkList(es: OMap<Value>): (links: seq<string>)
    ensures |links| == |es|
    ensures forall i :: 0 <= i < |es| ==> links[i] == ActionLinkHtml(es[i].0, es[i].1)
  {
    if es == [] then [] else ActionLinkList(es[..|es| - 1]) + [ActionLinkHtml(es[|es| - 1].0, es[|es| - 1].1)]
  }

  /** The custom links, each as a string. */
  function CustomLinkList(es: OMap<Value>): (links: seq<string>)
    ensures |links| == |es|
    ensures forall i :: 0 <= i < |es| ==> links[i] == ToStr(es[i].1)
  {
    if es == [] then [] else CustomLinkList(es[..|es| - 1]) + [ToStr(es[|es| - 1].1)]
  }

  /** The `$links` list built from the two filtered link tables. */
  function LinkList(actionLinks: Value, customLinks: Value): (links: seq<string>)
    ensures |links| == CountOf(actionLinks) + CountOf(customLinks)
  {
    (if Truthy(actionLinks) && actionLinks.Arr? then ActionLinkList(actionLinks.entries) else [])
    + (if Truthy(customLinks) && customLinks.Arr? then CustomLinkList(customLinks.entries) else [])
  }

  /** The first loop's step: one more action link. */
  lemma ActionLinkStep(es: OMap<Value>, i: nat)
    requires i < |es|
    ensures ActionLinkList(es[..i + 1]) == ActionLinkList(es[..i]) + [ActionLinkHtml(es[i].0, es[i].1)]
  {
    assert es[..i + 1][..i] == es[..i];
  }

  /** The second loop's step: one more custom link after the action links. */
  lemma CustomLinkStep(first: seq<string>, es: OMap<Value>, i: nat)
    requires i < |es|
    ensures first + CustomLinkList(es[..i + 1]) == first + CustomLinkList(es[..i]) + [ToStr(es[i].1)]
  {
    assert es[..i + 1][..i] == es[..i];
    assert CustomLinkList(es[..i + 1]) == CustomLinkList(es[..i]) + [ToStr(es[i].1)];
  }

  /** The two loops of `get_action_links` that fill `$links`. */
  method CollectLinks(actionLinks: Value, customLinks: Value) returns (links: seq<string>)
    ensures links == LinkList(actionLinks, customLinks)
  {
    links := [];
    if Truthy(actionLinks) && actionLinks.Arr? {
      var es := actionLinks.entries;
      for i := 0 to |es|
        invariant links == ActionLinkList(es[..i])
      {
        ActionLinkStep(es, i);
        links := links + [ActionLinkHtml(es[i].0, es[i].1)];
      }
      assert es[..|es|] == es;
    }
    var first := links;
    if Truthy(customLinks) && customLinks.Arr? {
      var es := customLinks.entries;
      for i := 0 to |es|
        invariant links == first + CustomLinkList(es[..i])
      {
        CustomLinkStep(first, es, i);
        links := links + [ToStr(es[i].1)];
      }
      assert es[..|es|] == es;
    } else {
      assert links == first + [];
    }
  }

  /**
   * `get_action_links`, given the values of the `wp_stream_action_links_<connector>`
   * and `wp_stream_custom_action_links_<connector>` filters.
   */
  method GetActionLinks(actionLinks: Value, customLinks: Value) returns (out: string)
    ensures !Truthy(actionLinks) && !Truthy(customLinks) ==> out == ""
    ensures Truthy(actionLinks) || Truthy(customLinks) ==>
              out == "<div class=\"row-actions\">" + Join(LinkList(actionLinks, customLinks), " | ") + "</div>"
    ensures Truthy(actionLinks) && !actionLinks.Arr? && !Truthy(customLinks) ==> out == "<div class=\"row-actions\"></div>"
  {
    out := "";
    var open := Truthy(actionLinks) || Truthy(customLinks);
    if open {
      out := out + "<div class=\"row-actions\">";
    }
    var links := CollectLinks(actionLinks, customLinks);
    out := out + Join(links, " | ");
    if open {
      out := out + "</div>";
    } else {
      assert links == [];
    }
  }

  // ---------------------------------------------------------------------------------
  // assemble_records

  /** `WP_Stream_Admin::PRELOAD_AUTHORS_MAX`. */
  const PreloadAuthorsMax: int := 50

  /** The `disabled` attribute of an option without records. */
  const DisabledAttr: string := "disabled=\"disabled\""

  /** One option of a filter drop-down: `array( 'label' => ..., 'disabled' => ... )`. */
  datatype FilterItem = FilterItem(text: string, disabled: string)

  /**
   * `$hide_disabled_column_filter`: false only when `exclude_hide_previous_records` is
   * unset or the integer 0 (the comparison is `0 === ...`).
   */
  function HideDisabled(options: OMap<Value>): (hiding: bool)
    ensures !HasKey(options, "exclude_hide_previous_records") ==> !hiding
    ensures Lookup(options, "exclude_hide_previous_records") == Some(Int(0)) ==> !hiding
    ensures forall v :: Lookup(options, "exclude_hide_previous_records") == Some(v) && !v.Null? && v != Int(0) ==> hiding
  {
    match Lookup(options, "exclude_hide_previous_records")
    case None => false
    case Some(v) => !v.Null? && v != Int(0)
  }

  /** The test of the hiding loops: an entry is shown unless hiding is on and its key is excluded. */
  function Shown(hiding: bool, excluded: seq<string>): ((string, string)) -> bool
  {
    (e: (string, string)) => !(hiding && e.0 in excluded)
  }

  /** The author loop: hidden authors are skipped, the rest keyed by user ID. */
  method CollectAuthors(authors: OMap<string>, hiding: bool, excluded: seq<string>) returns (all: OMap<string>)
    ensures all == PutAll([], FilterEntries(authors, Shown(hiding, excluded)))
  {
    all := [];
    for i := 0 to |authors|
      invariant all == PutAll([], FilterEntries(authors[..i], Shown(hiding, excluded)))
    {
      var author := authors[i];
      FilterEntriesSnoc(authors, i, Shown(hiding, excluded));
      if hiding && author.0 in excluded {
        assert !Shown(hiding, excluded)(author);
        PutAllSnoc([], FilterEntries(authors[..i], Shown(hiding, excluded)), []);
        continue;
      }
      assert Shown(hiding, excluded)(author);
      PutAllSnoc([], FilterEntries(authors[..i], Shown(hiding, excluded)), [author]);
      all := Put(all, author.0, author.1);
    }
    assert authors[..|authors|] == authors;
  }

  /** The unset loop of the term branch: every excluded term is unset. */
  method HideExcluded(labels: OMap<string>, excluded: seq<string>) returns (all: OMap<string>)
    requires Wf(labels)
    ensures all == FilterEntries(labels, Shown(true, excluded))
  {
    all := labels;
    for i := 0 to |labels|
      invariant all == FilterEntries(labels[..i], Shown(true, excluded)) + labels[i..]
    {
      UnsetLoopStep(labels, i, Shown(true, excluded));
      if labels[i].0 in excluded {
        all := Remove(all, labels[i].0);
      }
    }
    assert labels[..|labels|] == labels;
  }

  /**
   * The entries `assemble_records` starts from: the authors (plus the WP-CLI pseudo-user
   * with ID 0) for the author column, the registry's term labels otherwise.
   */
  function AllRecords(column: string, hiding: bool, excluded: seq<string>, termLabels: OMap<string>,
                      users: OMap<string>, cliName: string): OMap<string>
  {
    if column == "author" then PutAll([], FilterEntries(users + [("0", cliName)], Shown(hiding, excluded)))
    else if hiding then FilterEntries(termLabels, Shown(true, excluded))
    else termLabels
  }

  /** The starting entries are a well-formed array, and hidden keys are gone from it. */
  lemma AllRecordsSpec(column: string, hiding: bool, excluded: seq<string>, termLabels: OMap<string>,
                       users: OMap<string>, cliName: string)
    requires Wf(termLabels)
    ensures Wf(AllRecords(column, hiding, excluded, termLabels, users, cliName))
    ensures hiding ==> forall e :: e in AllRecords(column, hiding, excluded, termLabels, users, cliName) ==> e.0 !in excluded
  {
    var authors := users + [("0", cliName)];
    if column == "author" {
      PutAllWf([], FilterEntries(authors, Shown(hiding, excluded)));
      PutAllMembers([], FilterEntries(authors, Shown(hiding, excluded)));
      FilterEntriesSpec(authors, Shown(hiding, excluded));
    } else if hiding {
      FilterEntriesWf(termLabels, Shown(true, excluded));
      FilterEntriesSpec(termLabels, Shown(true, excluded));
    }
  }

  /** An option as it goes into the active (`""`) or the disabled list. */
  function Tagged(text: string, active: bool): FilterItem
  {
    FilterItem(text, if active then "" else DisabledAttr)
  }

  /** The entries the partition loop assigns to the active (or the disabled) list, in order. */
  function Part(all: OMap<string>, existing: seq<string>, active: bool): OMap<FilterItem>
  {
    if all == [] then []
    else Part(all[..|all| - 1], existing, active)
         + (var e := all[|all| - 1]; if (e.0 in existing) == active then [(e.0, Tagged(e.1, active))] else [])
  }

  /** Exactly the entries on the requested side of the partition, each tagged for its side. */
  lemma {:induction false} PartSpec(all: OMap<string>, existing: seq<string>, active: bool)
    ensures forall e :: e in Part(all, existing, active) ==>
              (e.0, e.1.text) in all && (e.0 in existing) == active && e.1 == Tagged(e.1.text, active)
    ensures forall e :: e in all && (e.0 in existing) == active ==> (e.0, Tagged(e.1, active)) in Part(all, existing, active)
  {
    if all != [] {
      var init := all[..|all| - 1];
      PartSpec(init, existing, active);
      assert all == init + [all[|all| - 1]];
    }
  }

  /** The partition loop's next step. */
  lemma PartSnoc(all: OMap<string>, i: nat, existing: seq<string>, active: bool)
    requires i < |all|
    ensures Part(all[..i + 1], existing, active)
         == Part(all[..i], existing, active) + (if (all[i].0 in existing) == active then [(all[i].0, Tagged(all[i].1, active))] else [])
  {
    assert all[..i + 1][..i] == all[..i];
  }

  lemma PartKeys(all: OMap<string>, existing: seq<string>, active: bool, k: string)
    requires HasKey(Part(all, existing, active), k)
    ensures HasKey(all, k)
  {
    var p := Part(all, existing, active);
    PartSpec(all, existing, active);
    var x := p[IndexOf(p, k)];
    assert x in p;
    var j :| 0 <= j < |all| && all[j] == (x.0, x.1.text);
    assert Keys(all)[j] == k;
  }

  lemma {:induction false} PartWf(all: OMap<string>, existing: seq<string>, active: bool)
    requires Wf(all)
    ensures Wf(Part(all, existing, active))
  {
    if all != [] {
      var n := |all| - 1;
      var init, e := all[..n], all[n];
      assert Wf(init);
      PartWf(init, existing, active);
      if (e.0 in existing) == active {
        WfSplit(all, n);
        if HasKey(Part(init, existing, active), e.0) { PartKeys(init, existing, active, e.0); }
        WfSnoc(Part(init, existing, active), (e.0, Tagged(e.1, active)));
      }
    }
  }

  /** The partition loop: an entry with records goes to the active list, the rest to the disabled one. */
  method Partition(all: OMap<string>, existing: seq<string>) returns (active: OMap<FilterItem>, disabled: OMap<FilterItem>)
    requires Wf(all)
    ensures active == Part(all, existing, true) && disabled == Part(all, existing, false)
  {
    active, disabled := [], [];
    for i := 0 to |all|
      invariant active == PutAll([], Part(all[..i], existing, true))
      invariant disabled == PutAll([], Part(all[..i], existing, false))
    {
      var record, name := all[i].0, all[i].1;
      PartSnoc(all, i, existing, true);
      PartSnoc(all, i, existing, false);
      if record in existing {
        PutAllSnoc([], Part(all[..i], existing, true), [(record, Tagged(name, true))]);
        PutAllSnoc([], Part(all[..i], existing, false), []);
        active := Put(active, record, FilterItem(name, ""));
      } else {
        PutAllSnoc([], Part(all[..i], existing, false), [(record, Tagged(name, false))]);
        PutAllSnoc([], Part(all[..i], existing, true), []);
        disabled := Put(disabled, record, FilterItem(name, DisabledAttr));
      }
    }
    assert all[..|all|] == all;
    PartWf(all, existing, true);
    PartWf(all, existing, false);
    PutAllFresh(Part(all, existing, true));
    PutAllFresh(Part(all, existing, false));
  }

  /** The sort key: the lower-cased label. */
  function SortKey(e: (string, FilterItem)): string
  {
    ToLower(e.1.text)
  }

  ghost predicate SortedByLabel(s: OMap<FilterItem>)
  {
    forall i, j :: 0 <= i < j < |s| ==> StrLessEq(SortKey(s[i]), SortKey(s[j]))
  }

  /** Inserting one entry before the first entry it does not sort after. */
  function Insert(s: OMap<FilterItem>, x: (string, FilterItem)): (r: OMap<FilterItem>)
    ensures multiset(r) == multiset(s) + multiset{x}
  {
    if s == [] then [x]
    else if StrLessEq(SortKey(x), SortKey(s[0])) then [x] + s
    else assert s == [s[0]] + s[1..]; [s[0]] + Insert(s[1..], x)
  }

  /** A sorted list stays sorted when its head is dropped. */
  lemma SortedTail(s: OMap<FilterItem>)
    requires s != [] && SortedByLabel(s)
    ensures SortedByLabel(s[1..])
  {
    var t := s[1..];
    forall i, j | 0 <= i < j < |t| ensures StrLessEq(SortKey(t[i]), SortKey(t[j])) {
      assert t[i] == s[i + 1] && t[j] == s[j + 1];
    }
  }

  /** Putting an entry that sorts no later than every entry of a sorted list in front keeps it sorted. */
  lemma SortedCons(x: (string, FilterItem), s: OMap<FilterItem>)
    requires SortedByLabel(s)
    requires forall y :: y in s ==> StrLessEq(SortKey(x), SortKey(y))
    ensures SortedByLabel([x] + s)
  {
    var r := [x] + s;
    forall i, j | 0 <= i < j < |r| ensures StrLessEq(SortKey(r[i]), SortKey(r[j])) {
      if i == 0 {
        assert r[j] == s[j - 1] && s[j - 1] in s;
      } else {
        assert r[i] == s[i - 1] && r[j] == s[j - 1];
      }
    }
  }

  lemma StrLessEqTrans(a: string, b: string, c: string)
    requires StrLessEq(a, b) && StrLessEq(b, c)
    ensures StrLessEq(a, c)
  {
    if a != b && b != c { StrLessTrans(a, b, c); }
  }

  lemma {:induction false} InsertSorted(s: OMap<FilterItem>, x: (string, FilterItem))
    requires SortedByLabel(s)
    ensures SortedByLabel(Insert(s, x))
  {
    if s == [] {
    } else if StrLessEq(SortKey(x), SortKey(s[0])) {
      forall y | y in s ensures StrLessEq(SortKey(x), SortKey(y)) {
        var j :| 0 <= j < |s| && s[j] == y;
        if j > 0 { StrLessEqTrans(SortKey(x), SortKey(s[0]), SortKey(y)); }
      }
      SortedCons(x, s);
    } else {
      var t := s[1..];
      SortedTail(s);
      InsertSorted(t, x);
      StrLessTotal(SortKey(x), SortKey(s[0]));
      var rest := Insert(t, x);
      forall y | y in rest ensures StrLessEq(SortKey(s[0]), SortKey(y)) {
        assert y in multiset(rest);
        if y != x {
          assert y in multiset(t);
          var j :| 0 <= j < |t| && t[j] == y;
          assert s[j + 1] == y;
        }
      }
      SortedCons(s[0], rest);
    }
  }

  /** `uasort` with the lower-case label comparator; entries keep their keys. */
  method SortItems(items: OMap<FilterItem>) returns (sorted: OMap<FilterItem>)
    ensures multiset(sorted) == multiset(items)
    ensures SortedByLabel(sorted)
  {
    sorted := [];
    for i := 0 to |items|
      invariant multiset(sorted) == multiset(items[..i])
      invariant SortedByLabel(sorted)
    {
      InsertSorted(sorted, items[i]);
      sorted := Insert(sorted, items[i]);
      assert items[..i + 1] == items[..i] + [items[i]];
    }
    assert items[..|items|] == items;
  }

  /**
   * The options of a drop-down built from `all`: the active entries sorted, then the
   * disabled ones without key "0" sorted.
   */
  ghost predicate Arranged(records: OMap<FilterItem>, all: OMap<string>, existing: seq<string>)
  {
    var act := Part(all, existing, true);
    var dis := Remove(Part(all, existing, false), "0");
    |records| == |act| + |dis|
    && multiset(records[..|act|]) == multiset(act) && SortedByLabel(records[..|act|])
    && multiset(records[|act|..]) == multiset(dis) && SortedByLabel(records[|act|..])
  }

  /**
   * What every option of an arranged drop-down is: an entry of `all` under its own key,
   * enabled iff it has records, and the WP-CLI key "0" only when it has records.
   */
  lemma ArrangedEntries(records: OMap<FilterItem>, all: OMap<string>, existing: seq<string>)
    requires Arranged(records, all, existing)
    ensures forall e :: e in records ==>
              (e.0, e.1.text) in all && (e.1.disabled == "" <==> e.0 in existing) && (e.0 == "0" ==> "0" in existing)
  {
    var act := Part(all, existing, true);
    var dis := Remove(Part(all, existing, false), "0");
    PartSpec(all, existing, true);
    PartSpec(all, existing, false);
    RemoveMembers(Part(all, existing, false), "0");
    forall e | e in records
      ensures (e.0, e.1.text) in all && (e.1.disabled == "" <==> e.0 in existing) && (e.0 == "0" ==> "0" in existing)
    {
      var j :| 0 <= j < |records| && records[j] == e;
      if j < |act| {
        assert e in records[..|act|];
        assert e in multiset(act);
      } else {
        assert e in records[|act|..];
        assert e in multiset(dis);
      }
    }
  }

  /** Partition, removal of the WP-CLI pseudo-user, the two sorts and the union. */
  method Arrange(all: OMap<string>, existing: seq<string>) returns (records: OMap<FilterItem>)
    requires Wf(all)
    ensures Arranged(records, all, existing)
  {
    var active, disabled := Partition(all, existing);
    if HasKey(disabled, "0") {
      disabled := Remove(disabled, "0");
    } else {
      RemoveAbsent(disabled, "0");
    }
    var sa := SortItems(active);
    var sd := SortItems(disabled);
    assert disabled == Remove(Part(all, existing, false), "0");
    assert |sa| == |active| by { assert |multiset(sa)| == |multiset(active)|; }
    assert |sd| == |disabled| by { assert |multiset(sd)| == |multiset(disabled)|; }
    SidesDisjoint(sa, sd, all, existing);
    UnionDisjoint(sa, sd);
    records := Union(sa, sd);
    assert records[..|sa|] == sa && records[|sa|..] == sd;
  }

  /**
   * `assemble_records`. `options` are the Stream options, `excluded` is what
   * `get_excluded_by_key` gives for the column's setting key, `termLabels` is
   * `$term_labels['stream_<column>']`, `totalUsers`, `users` (ID → display name) and
   * `cliName` come from `count_users`, `get_users` and the WP-CLI author, and `existing`
   * are the keys of `wp_stream_existing_records`.
   */
  method AssembleRecords(column: string, options: OMap<Value>, excluded: seq<string>, termLabels: OMap<string>,
                         totalUsers: int, users: OMap<string>, cliName: string, existing: seq<string>)
    returns (records: OMap<FilterItem>)
    requires Wf(termLabels)
    ensures column == "author" && totalUsers > PreloadAuthorsMax ==> records == []
    ensures !(column == "author" && totalUsers > PreloadAuthorsMax) ==>
              Arranged(records, AllRecords(column, HideDisabled(options), excluded, termLabels, users, cliName), existing)
    ensures forall e :: e in records ==> (e.1.disabled == "" <==> e.0 in existing)
    ensures forall e :: e in records && e.0 == "0" ==> "0" in existing
    ensures HideDisabled(options) ==> forall e :: e in records ==> e.0 !in excluded
  {
    var hiding := HideDisabled(options);
    var all: OMap<string>;
    if column == "author" {
      if totalUsers > PreloadAuthorsMax {
        return [];
      }
      all := CollectAuthors(users + [("0", cliName)], hiding, excluded);
    } else {
      all := termLabels;
      if hiding {
        all := HideExcluded(termLabels, excluded);
      }
    }
    AllRecordsSpec(column, hiding, excluded, termLabels, users, cliName);
    records := Arrange(all, existing);
    ArrangedEntries(records, all, existing);
  }

  /** No key of the disabled options is a key of the active ones. */
  lemma SidesDisjoint(sa: OMap<FilterItem>, sd: OMap<FilterItem>, all: OMap<string>, existing: seq<string>)
    requires multiset(sa) == multiset(Part(all, existing, true))
    requires multiset(sd) == multiset(Remove(Part(all, existing, false), "0"))
    ensures forall e :: e in sd ==> !HasKey(sa, e.0)
  {
    PartSpec(all, existing, false);
    RemoveMembers(Part(all, existing, false), "0");
    forall e | e in sd ensures !HasKey(sa, e.0) {
      assert e in multiset(sd);
      assert e.0 !in existing;
      if HasKey(sa, e.0) { ActiveKeyExists(sa, all, existing, e.0); }
    }
  }

  /** Every key of a permutation of the active list has records. */
  lemma ActiveKeyExists(sa: OMap<FilterItem>, all: OMap<string>, existing: seq<string>, k: string)
    requires multiset(sa) == multiset(Part(all, existing, true)) && HasKey(sa, k)
    ensures k in existing
  {
    var x := sa[IndexOf(sa, k)];
    assert x in multiset(sa);
    PartSpec(all, existing, true);
  }
}
