# Stream (WordPress activity log): the decision logic, modelled in Dafny

Stream records what happens on a WordPress site (who did what, to which object, in
which context) and shows the records in an admin list table. This project models the
rules at its core and proves what they promise:

- **Logging** (`log.dfy`, module `StreamLog`): the exclusion rules of
  `WP_Stream_Log::is_record_excluded`; the record `log` builds from a raw event
  (default ids, the cron skip, the meta step, the visibility); the per-request
  transaction timer, as a `Logger` class whose `Log` method stamps and re-arms it.
- **Pre-logging gates and the connector registry** (`connectors.dfy`, module
  `Connectors`): the user, role and IP gates, and `WP_Stream_Connectors::load`, which
  registers the valid, non-excluded connectors and merges their label tables. It is the
  `ConnectorRegistry` class.
- **The connector base** (`connector.dfy`, module `Connector`): the callback name
  dispatch, the context → action filter in front of the logger, and the delayed-log
  table keyed by handle.
- **Alerts** (`alerts.dfy`, module `Alerts`): loading the built-in alert types and
  triggers by slug, dropping the invalid ones with a warning (`AlertRegistry`);
  `check_records`, `get_alert`, `filter_update_messages` and the guards of
  `save_post_info`.
- **Settings** (`settings.dfy`, module `Settings`): the field table and its cache
  (`SettingsState`), the flattened defaults, stored options over defaults, the
  rewrite-flush and auto-purge triggers, the role picker and the setting labels.
- **The records list table** (`listtable.dfy`, module `ListTable`): the query
  parameter whitelist, the column → exclusion-setting map, term titles, action links,
  and `assemble_records` (hiding, the active/disabled partition, the WP-CLI removal,
  the case-insensitive sort that keeps keys).
- **Capabilities and admin helpers** of both admin classes: `caps.dfy` (module `Caps`)
  holds the grant rules both generations share; `admin.dfy` (module `Admin`) is the
  namespaced `WP_Stream\Admin`; `legacyadmin.dfy` (module `LegacyAdmin`) is the static
  `WP_Stream_Admin`.
- **The admin script** (`adminui.dfy`, module `AdminUi`): the IPv4 check of the
  exclusion picker, the select2 change handler, `group_records`, `regenerate_row_alt`
  and the live-update trimming.
- `php.dfy` (module `Php`) gives the PHP semantics the others rely on. An array is an
  ordered list of key/value pairs with PHP's assignment, `array_merge`, `unset` and
  `array_filter`. It also holds truthiness, `is_numeric`/`absint`, and the string
  helpers.

WordPress itself (users, options, hooks, the database, HTTP input) enters each
operation as parameters: plain values, or functions standing for callbacks and lookups.
Some filter hooks (`apply_filters`) are function parameters, so the model follows
whatever a hooked callback returns: the connector list, the alert tables, the settings
fields and the action-link tables. Every other filter is modelled at its default, with
no callback hooked, and returns its value unchanged. That includes four filters whose
boolean decides an outcome (see "Left out").

Where PHP 7 and PHP 8 differ, the model follows PHP 8. The one exception is
`Caps.RoleCanView`, which keeps PHP 7's result for a non-array option (see "Left out").


## Model

| member | source | states |
|---|---|---|
| StreamLog.RuleEntriesMeaning | classes/class-wp-stream-log.php:248-267 | A row's `$exclude_rules` is non-empty iff the rule sets some field. The inner `!==` loop succeeds iff every set field equals the record's field. |
| StreamLog.ExcludedIffSomeRuleFires | classes/class-wp-stream-log.php:239-276 | Over any rows, the outer loop returns true iff some row's rule sets a field and all its set fields match (rules ORed, fields ANDed). |
| StreamLog.IsRecordExcluded | classes/class-wp-stream-log.php:215-277 | `is_record_excluded` holds iff some `exclude_row` key yields a firing rule. A column with no entry for the key counts as unset. |
| StreamLog.EmptyRowSetsNothing | classes/class-wp-stream-log.php:242-259 | A row whose five columns are all empty produces no rule entries, so it is skipped. |
| StreamLog.AuthorOrRoleRule | classes/class-wp-stream-log.php:253-254 | A numeric `author_or_role` constrains only `author`, to its `absint`. A non-empty non-numeric one constrains only `role`. No row constrains both. |
| StreamLog.ZeroAuthorRowExcludesUserZero | classes/class-wp-stream-log.php:253-257 | "0" is numeric and survives the `strlen` filter, so a row holding only author_or_role "0" excludes user 0. |
| StreamLog.Stringify | classes/class-wp-stream-log.php:147-152 | `array_walk` keeps every key in place and replaces each value by its string. |
| StreamLog.FilterNotNull | classes/class-wp-stream-log.php:139-144 | `array_filter` keeps exactly the non-null arguments, in their order, with their values. |
| StreamLog.StreamMetaSpec | classes/class-wp-stream-log.php:139-152 | After the meta step every value is a string. The keys are exactly those of the non-null arguments, in order. Each value is the string of that argument. |
| StreamLog.MetaStep | classes/class-wp-stream-log.php:139-152 | The walk over the arguments produces exactly the specified `stream_meta`. |
| StreamLog.BuildRecord | classes/class-wp-stream-log.php:157-173 | The record's `stream_meta` is the filtered, stringified arguments. |
| StreamLog.RecordVisibility | classes/class-wp-stream-log.php:116-169 | The stored `visibility` is "private" iff `is_record_excluded` holds for the event's connector, context, action and resolved user; otherwise it is "publish". |
| StreamLog.WithTransactionSpec | classes/class-wp-stream-log.php:180-182 | The meta gains `transaction_start`, `transaction_stop` and `transaction_time` (stop − start). Every other key keeps its value. |
| StreamLog.Logger.constructor | classes/class-wp-stream-log.php:34-35 | A fresh transaction object has no start, stop or time, and nothing is stored. |
| StreamLog.Logger.TransactionStart | classes/class-wp-stream-log.php:59-70 | `start` becomes the current time. |
| StreamLog.Logger.TransactionReset | classes/class-wp-stream-log.php:77-79 | `start` becomes null. |
| StreamLog.Logger.Log | classes/class-wp-stream-log.php:94-203 | A skipped cron event stores nothing and leaves the timer alone. Any other event stores exactly one record. The record carries the transaction keys iff `start` was set, and then `start` is re-armed to a fresh time. An unset `start` leaves the timer unchanged. |
| StreamLog.DefaultsForMissingIds | classes/class-wp-stream-log.php:97-103 | A null object id is stored as 0 and a null user id as the current user. (Also lines 158-161 of the same file.) |
| Php.IntValSkipsSpace | classes/class-wp-stream-log.php:158-161 | Leading white space (space, tab, line feed, carriage return, vertical tab, form feed) does not change the value of the `(int)` casts of `object_id` and `author`. |
| Connectors.Intersect | classes/class-wp-stream-connectors.php:192 | `array_intersect` is empty iff no entry of the first list occurs in the second. |
| Connectors.IsLoggingEnabled | classes/class-wp-stream-connectors.php:253-258 | A value is logged iff no excluded value of its column equals it. |
| Connectors.IsLoggingEnabledForUser | classes/class-wp-stream-connectors.php:176-211 | A non-user or user 0 is always logged. A real user is logged iff its ID is not an excluded author and none of its roles is an excluded role. |
| Connectors.IsLoggingEnabledForIp | classes/class-wp-stream-connectors.php:220-244 | An invalid IP is always logged. A valid IP is logged iff `is_logging_enabled( 'ip_addresses', ip )` holds. |
| Connectors.ExcludedRoleDisables | classes/class-wp-stream-connectors.php:191-194 | A real user with an excluded role is not logged. |
| Connectors.IpGate | classes/class-wp-stream-connectors.php:227-258 | A valid IP is logged iff it is not in the `ip_addresses` exclusions. |
| Connectors.BuiltinClasses | classes/class-wp-stream-connectors.php:42-64 | Ten built-in connector classes, eleven in the network admin. |
| Connectors.NameLabels | classes/class-wp-stream-connectors.php:87-89 | The first loop assigns each connector's label under its name, in order. |
| Connectors.RegisteredSpec | classes/class-wp-stream-connectors.php:94-127 | `register()` runs for exactly the connectors that extend `WP_Stream_Connector` and are not excluded, in order. It runs for none when user or IP logging is off. |
| Connectors.NoticesSpec | classes/class-wp-stream-connectors.php:95-104 | Exactly one admin notice is appended per class that is not a connector, in order. |
| Connectors.EligibleClassesSpec | classes/class-wp-stream-connectors.php:95-123 | A class is accepted iff it is among the connectors, extends the base class and is not excluded. |
| Connectors.StepMerges | classes/class-wp-stream-connectors.php:129-140 | One accepted connector adds its context labels under its name and merges its action and context labels into the tables. |
| Connectors.ActionLabelsSpec | classes/class-wp-stream-connectors.php:133-136 | The action-label table is the old table with every accepted connector's labels merged in, in order. |
| Connectors.ContextLabelsSpec | classes/class-wp-stream-connectors.php:137-140 | The same for the context-label table. |
| Connectors.LaterLabelWins | classes/class-wp-stream-connectors.php:133-136 | A slug's merged label is the one of the last accepted connector that labels it, else the old one. |
| Connectors.ContextsSpec | classes/class-wp-stream-connectors.php:119-130 | The contexts table gains an entry under every accepted connector's name, holding the `get_context_labels()` of the last accepted connector with that name. It is unchanged under any other name, so an excluded connector adds nothing. |
| Connectors.LastContextWins | classes/class-wp-stream-connectors.php:119-130 | When the connector at some position is accepted under a name and no later one is, the entry under that name is that connector's context labels. |
| Connectors.ExcludeAllKeepsTables | classes/class-wp-stream-connectors.php:66-76 | Turning user or IP logging off changes only registration: labels, contexts and notices are the same. (Also lines 125-140 of the same file.) |
| Connectors.ConnectorRegistry.constructor | classes/class-wp-stream-connectors.php:34 | All static tables start empty. |
| Connectors.ConnectorRegistry.Load | classes/class-wp-stream-connectors.php:39-149 | The connector list is the filtered built-in list. The state is the first loop's labels followed by the second loop's registration, with the user and IP gates deciding whether anything is registered. |
| Connectors.ConnectorRegistry.RecordLabels | classes/class-wp-stream-connectors.php:87-89 | The connector-label table gains every connector's label under its name. |
| Connectors.ConnectorRegistry.RegisterAll | classes/class-wp-stream-connectors.php:94-141 | The loop produces exactly the specified registration of all connectors. |
| Connectors.ConnectorRegistry.Visit | classes/class-wp-stream-connectors.php:95-140 | One loop body: skip with a notice, skip when excluded, or register (unless gated) and merge. |
| Connector.CallbackName | classes/connector.php:46 | The name is "callback_" and then the action with every '-' replaced by '_'. No '-' remains. |
| Connector.Callback | classes/connector.php:43-62 | The callback is invoked iff that name is callable, and then it is that name. |
| Connector.DashAndUnderscoreMeet | classes/connector.php:46 | Hook names that differ only in '-' versus '_' dispatch to the same callback. |
| Connector.ActionLinks | classes/connector.php:72-74 | The default `action_links` returns `$links` unchanged. |
| Connector.AllowedSpec | classes/connector.php:90-98 | A context → action pair survives iff neither its context nor its action is excluded, and then it is unchanged. |
| Connector.FilterContexts | classes/connector.php:90-98 | The unset loop leaves exactly the allowed pairs, in order. |
| Connector.ContextsValue | classes/connector.php:109 | The contexts array as a PHP value has the same entries. |
| Connector.Log | classes/connector.php:88-112 | No logger call is made iff no pair survives. Otherwise exactly one call is made, with the connector name and the filtered contexts in the slots as written. |
| Connector.DelegatedRecordShape | classes/connector.php:104-111 | Through the slot mismatch the stored record's context is "Array", its action is the user id as a string, and its author is the current user. |
| Connector.IntendedRecordShape | classes/connector.php:88-112 | With the slots matching the logger's signature, there is one call per surviving pair. Each call's record carries that pair's context, its action, and the given user, or the current user when none is given. |
| Connector.DelayedLogAsWritten | classes/connector.php:123-128 | As written, `delayed_log` stops with a fatal error: `$delayed` is not declared. |
| Connector.DelayedLogStoresOnlyWhenDeclared | classes/connector.php:123-128 | As written the call stops with a fatal error. With the table declared, the arguments are stored under the handle and every other handle keeps its entry. |
| Connector.DelayedLogs.constructor | classes/connector.php:127 | The table with `$delayed` declared starts empty. |
| Connector.DelayedLogs.DelayedLog | classes/connector.php:123-128 | The arguments after the handle are stored under the handle. Every other handle keeps its entry. |
| Connector.DelayedLogs.DelayedLogCommit | classes/connector.php:135-139 | `log` is called once per stored handle, in table order, with that handle's arguments. |
| Connector.DelayedHandleOverwrites | classes/connector.php:127 | Reusing a handle overwrites its entry. The table never grows for a known handle. |
| Alerts.LoadBuiltins | classes/class-alerts.php:107-121 | The built-in loop produces exactly the `$classes[ $class->slug ] = $class` assignments of the classes that exist and have a slug. (Also lines 156-169 of the same file.) |
| Alerts.LoadedSpec | classes/class-alerts.php:108-121 | Each assignment stores, under its slug, the object of an existing built-in class whose `slug` is that key. |
| Alerts.BuiltinsSpec | classes/class-alerts.php:108-121 | The table is keyed by slug. An entry's value is the object of the last built-in class with that slug. (Also lines 157-169 of the same file.) |
| Alerts.Warnings | classes/class-alerts.php:131-141 | Never more warnings than entries. |
| Alerts.WarningsCount | classes/class-alerts.php:131-189 | The warnings and the surviving entries together number exactly the entries. |
| Alerts.DropInvalid | classes/class-alerts.php:131-189 | The validation loop leaves exactly the valid entries, in order, and raises one warning per dropped entry. |
| Alerts.ValidationSpec | classes/class-alerts.php:128-141 | After validation every entry left is valid, and an entry is left iff it was valid. (Also lines 198-208 of the same file.) |
| Alerts.FirstMeta | classes/class-alerts.php:399-402 | A meta key reads as its first value, or null when absent. |
| Alerts.GetAlert | classes/class-alerts.php:384-408 | An empty post id gives the empty alert. Otherwise the post's ID, status, date and author are copied. Each of `filter_action`, `filter_author`, `filter_context` and `alert_type` is its meta key's first value, or null when the key is missing. `alert_meta` is the `(array)` cast of the unserialised first value, and an empty array when the key is missing or has no value. |
| Alerts.MatchingSpec | classes/class-alerts.php:244-251 | An alert is sent iff its `check_record` is truthy, in query order. |
| Alerts.CheckRecords | classes/class-alerts.php:237-255 | Each enabled alert is checked once, in query order. `send_alert` is called exactly for the matching ones. The record comes back unchanged. |
| Alerts.AlertMessages | classes/class-alerts.php:360-373 | Indices 1, 4, 6, 7 and 10 say "Alert updated."; 0, 2, 3, 5, 8 and 9 are empty. |
| Alerts.FilterUpdateMessages | classes/class-alerts.php:358-376 | Only the `wp_stream_alerts` entry is (re)written. Every other key is untouched. |
| Alerts.SavePostInfo | classes/class-alerts.php:718-743 | The data is processed only past the nonce, post-type, auto-draft and capability guards. Otherwise it comes back unchanged. |
| Alerts.OtherPostsUntouched | classes/class-alerts.php:724-726 | A non-alert post or an auto-draft alert passes through unchanged. |
| Alerts.AlertRegistry.constructor | classes/class-alerts.php:64-92 | After construction the types are the filtered built-in types with the invalid ones dropped, and likewise the triggers. The warnings are those for the types, then those for the triggers. |
| Alerts.LoadTable | classes/class-alerts.php:99-142 | The table is the filtered built-in table with exactly the entries that fail validation removed. One warning is issued per removed entry, in table order. |
| Alerts.AlertRegistry.LoadAlertTypes | classes/class-alerts.php:99-142 | The types are the filtered built-ins with the invalid ones dropped, and their warnings are appended. |
| Alerts.AlertRegistry.LoadAlertTriggers | classes/class-alerts.php:149-190 | The same for the triggers. |
| Settings.DefaultOf | includes/settings.php:171-173 | A field's default, or null when it has none. |
| Settings.FieldKey | includes/settings.php:171 | The section name fills the key's first characters, one "_" follows, and the field name fills the rest. |
| Settings.FieldKeyInjective | includes/settings.php:171 | Within one section, two fields share a flat key iff they have the same name. |
| Settings.ListValue | includes/settings.php:86-93 | A literal list is an array keyed 0, 1, ... |
| Settings.BuiltinSections | includes/settings.php:76-149 | The built-in sections are `general` and `connectors`, with their fields. |
| Settings.GeneralFields | includes/settings.php:79-134 | The general section has five fields. |
| Settings.ConnectorFields | includes/settings.php:138-147 | The connectors section has one field. |
| Settings.SectionEntries | includes/settings.php:170-174 | One assignment per field of a section, in order. |
| Settings.EntriesFrom | includes/settings.php:169-175 | Every assignment of the nested loops comes from a field of a section. |
| Settings.EntriesCover | includes/settings.php:169-175 | Every field of every section has its assignment. |
| Settings.Flatten | includes/settings.php:169-175 | The nested loops produce exactly the in-order assignments of every field. (Also lines 515-519 of the same file.) |
| Settings.GetDefaults | includes/settings.php:166-177 | `get_defaults` is the flattened assignment of field defaults. |
| Settings.DefaultsSpec | includes/settings.php:166-177 | The defaults have one key `section_field` per field and no other key. Each value is the default (or null) of a field with that key. |
| Settings.BuiltinDefaults | includes/settings.php:76-149 | The built-in defaults are, in order: all role keys, `administrator`, 0, 90, 0, and the default-connectors callable, under their `section_field` keys. (Also lines 166-177 of the same file.) |
| Settings.BuiltinKeysDistinct | includes/settings.php:76-149 | The built-in fields' flat keys are distinct. |
| Settings.Options | includes/settings.php:45-51 | A stored value wins over the default, the last one when a key is stored twice. A key missing from storage reads its default. Well-formed defaults give a well-formed array. |
| Settings.NothingStored | includes/settings.php:48 | With nothing stored the options are the defaults. |
| Settings.SettingsState.constructor | includes/settings.php:74-75 | The cache starts empty. |
| Settings.SettingsState.GetFields | includes/settings.php:74-159 | The first call caches the filtered built-in sections. Later calls return the cache unchanged. |
| Settings.SettingsState.Load | includes/settings.php:34-51 | The options are the filter applied to the stored values over the defaults of the (cached) fields. |
| Settings.PrivateFeeds | includes/settings.php:230-231 | The compared value is `general_private_feeds`, or 0 when the key is absent. |
| Settings.FlushesRewriteRules | includes/settings.php:228-236 | A flush happens only between two arrays. It never happens for an unchanged option, or between an absent key and an explicit 0. |
| Settings.FlushSpec | includes/settings.php:228-236 | The flush is the same either way round. The integer 0 and the string "0" do flush. |
| Settings.PurgesRecords | includes/settings.php:533-543 | The purge (new TTL below old, absent = −1) never fires for an unchanged option. Setting a TTL of −1 or more where there was no option never purges. |
| Settings.PurgeSpec | includes/settings.php:533-543 | The purge never fires in both directions, and it is transitive. |
| Settings.BlankTtlPurges | includes/settings.php:534-535 | A blanked TTL casts to 0 and so fires the purge. |
| Settings.GetRolesForSelect2 | includes/settings.php:472-483 | One entry per role, in role order, with `locked` true iff the role key is locked. |
| Settings.GetSettingsTranslations | includes/settings.php:510-522 | `labels['wp_stream']` is created when unset and gains every `section_field` → title. A scalar already stored there is a fatal error. |
| Settings.TranslationsSpec | includes/settings.php:510-522 | Every other top-level key and every other stored setting label is kept. Each field key is labelled with the title of a field that has that key. |
| ListTable.OrDefault | includes/list-table.php:129-134 | A falsy value (absent, "" or "0") is replaced by the fallback; any other value is kept. |
| ListTable.GetRecords | includes/list-table.php:125-165 | The loop builds exactly the specified query arguments. |
| ListTable.ParamEntriesSpec | includes/list-table.php:155-160 | A whitelisted parameter is copied iff its value is present and non-empty ("0" included), with that value. |
| ListTable.FixedKeysNotParams | includes/list-table.php:135-164 | `order`, `orderby`, `paged` and `records_per_page` are not whitelisted parameters. |
| ListTable.MergedArgs | includes/list-table.php:135-160 | Before paging, the arguments are the sort entries and then the copied parameters. |
| ListTable.QueryArgs | includes/list-table.php:125-165 | `paged` and `records_per_page` are as given. `order` and `orderby` default to DESC and ID. A whitelisted parameter is present iff the request carries a non-empty value, and then it has that value. No other parameter gets through. |
| ListTable.GetColumnExcludedSettingKey | includes/list-table.php:788-810 | connector→connectors, context→contexts, action→action, ip→ip_addresses, author→authors_and_roles, anything else → false. |
| ListTable.SettingKeyInjective | includes/list-table.php:788-810 | Different columns never share an exclusion setting. |
| ListTable.GetTermTitle | includes/list-table.php:366-373 | With no label table for the type, the title is the term itself. |
| ListTable.TermTitleOfRegistry | includes/list-table.php:366-373 | Against the registry's tables a term's title is its registered label, else the term. |
| ListTable.SetScreenOption | includes/list-table.php:696-702 | The value is kept for `edit_stream_per_page` only; otherwise the dummy comes back. |
| ListTable.ActionLinkList | includes/list-table.php:319-327 | One `<span>` link per title → href entry, in order. |
| ListTable.CustomLinkList | includes/list-table.php:329-333 | The custom links, in order. |
| ListTable.LinkList | includes/list-table.php:318-333 | As many links as the two tables contribute. |
| ListTable.CollectLinks | includes/list-table.php:318-333 | The two loops produce exactly that link list. |
| ListTable.GetActionLinks | includes/list-table.php:289-342 | The output is "" when both link tables are falsy. Otherwise it is one row-actions div holding the links joined by " \| ". A truthy table that is not an array contributes no link, so with the other table falsy the div is empty. |
| ListTable.HideDisabled | includes/list-table.php:394-401 | Hiding is off iff `exclude_hide_previous_records` is unset (or null) or the integer 0. Any other value, "0" included, turns it on. |
| ListTable.CollectAuthors | includes/list-table.php:427-432 | Hidden authors are skipped. The rest are keyed by user ID with their display names. |
| ListTable.HideExcluded | includes/list-table.php:437-444 | Exactly the excluded terms are unset; the others keep their labels and order. |
| ListTable.AllRecordsSpec | includes/list-table.php:404-445 | The starting entries are a well-formed array. When hiding is on no excluded key is among them. |
| ListTable.PartSpec | includes/list-table.php:451-457 | An entry goes to the active side iff its key has records, and every entry reaches its side. Each side carries the right `disabled` attribute. |
| ListTable.Partition | includes/list-table.php:448-457 | The loop builds exactly the two sides. |
| ListTable.SortItems | includes/list-table.php:464-473 | `uasort` returns a permutation of the entries, keys kept, sorted by lower-cased label. |
| ListTable.ArrangedEntries | includes/list-table.php:451-476 | Every option is an entry of the starting list under its own key, enabled iff it has records. Key "0" appears only when it has records. |
| ListTable.Arrange | includes/list-table.php:447-476 | The result is the sorted active entries followed by the sorted disabled ones without key 0. Keys are kept by the union, not renumbered. |
| ListTable.AssembleRecords | includes/list-table.php:390-479 | The author branch gives nothing above 50 users. Otherwise the result is the arranged starting entries, without any hidden key. |
| ListTable.SidesDisjoint | includes/list-table.php:451-476 | No disabled key is an active key, so the union loses nothing. |
| ListTable.ActiveKeyExists | includes/list-table.php:451-473 | Every key of the sorted active list has records. |
| Caps.RoleCanView | classes/class-admin.php:597-603 | A role may view iff `general_role_access` is an array holding the role as a value. A missing or non-array option lets no role view. |
| Caps.Select | classes/class-admin.php:629-632 | `array_filter` keeps exactly the role keys. |
| Caps.Unique | classes/class-admin.php:626 | `array_unique` keeps every value once and keeps the first element first. |
| Caps.UserRoles | classes/class-admin.php:626-634 | The roles checked are the user's roles and the capability keys that are roles, each once. |
| Caps.FirstViewCap | classes/class-admin.php:638-639 | The position of the first requested capability that is a view capability, if any. |
| Caps.FilterUserCaps | classes/class-admin.php:638-648 | The nested loop with `break 2` computes exactly the specified capability table. |
| Caps.GrantedSpec | classes/class-admin.php:636-650 | A capability is granted iff some role may view and some requested capability is a view capability. The one granted is the first such capability. |
| Caps.UserCapsSpec | classes/class-admin.php:642 | Only the granted capability changes, to true. Every other entry keeps its value. |
| Caps.RoleCaps | classes/class-admin.php:664-671 | `cap` becomes true iff it is a view capability and the role may view. Otherwise the table comes back unchanged. |
| Admin.FilterUserCapsAsWritten | classes/class-admin.php:636 | As written, every call stops: `self::VIEW_CAP` is not defined. |
| Admin.FilterUserCaps | classes/class-admin.php:617-651 | With `view_stream` as the view capability: the user's roles are collected and the shared grant loop runs. |
| Admin.AdministratorGrantLost | classes/class-admin.php:597-650 | With the default options an administrator asking for `view_stream` is granted it, while the code as written stops. |
| Admin.DefaultRoleAccess | classes/class-admin.php:597-603 | With the built-in defaults `role_can_view` holds exactly for `administrator`. |
| Admin.FilterRoleCapsAsWritten | classes/class-admin.php:665 | As written, `_filter_role_caps` stops for the same undefined constant. |
| Admin.FilterRoleCaps | classes/class-admin.php:664-672 | Only `view_stream` can be added, only for a role listed in `general_role_access`. Every other entry comes back as it was. |
| Admin.Candidates | classes/class-admin.php:680-683 | The pseudo-user under key 0, then the site's users under keys 1, 2, ... |
| Admin.Renumber | classes/class-admin.php:694 | `array_slice` keeps the order and renumbers the keys from 0. |
| Admin.AjaxAuthors | classes/class-admin.php:680-695 | At most 50 users are returned, and each one's lower-cased name contains the lower-cased query. |
| Admin.AjaxAuthorsSpec | classes/class-admin.php:680-695 | With no more than 50 matches, exactly the matches are returned under their keys. Otherwise the first 50 are returned, renumbered, in order. |
| Admin.PseudoUserFirst | classes/class-admin.php:680-691 | The pseudo-user comes first whenever its name matches. |
| Admin.EmptyQueryMatchesAll | classes/class-admin.php:689 | The empty query keeps every user. |
| Admin.FilterValueById | classes/class-admin.php:713-742 | For the author filter, id "0" gives "WP-CLI" and an unknown user gives "". An existing user gives its display name, and any other filter gives "". |
| Admin.PseudoUserLabelAgrees | classes/class-admin.php:681-721 | The label shown for ID 0 is the name the search lists under key 0. |
| Admin.DisabledOf | classes/class-admin.php:749 | `disabled` is copied from the args, or null when absent. |
| Admin.AuthorsRecordMetaAsWritten | classes/class-admin.php:744-762 | As written, the loop stops with an `Error` iff some argument is an object. Otherwise the keys equal the input keys, and each row holds the author's name, id, avatar, an empty title and the copied `disabled`. |
| Admin.AjaxAuthorsRecordMetaFails | classes/class-admin.php:677-698 | `ajax_filters` passes its selected users as objects, so as written every non-empty selection stops with an `Error`. The empty query always selects the pseudo-user, so it always stops. |
| Admin.GetAuthorsRecordMeta | classes/class-admin.php:744-762 | The output keys equal the input keys, in order. Each row holds the author's name, id, avatar, an empty title and `disabled`. `disabled` is copied from an array argument and null for an object. Wherever the written loop does not stop, the rows are the ones it builds. |
| Admin.SanitizeKey | classes/class-admin.php:398 | `sanitize_key` leaves only lower-case letters, digits, '_' and '-'. |
| Admin.TrimAll | classes/class-admin.php:408 | `trim` is applied to every class. |
| Admin.TrimKey | classes/class-admin.php:408 | A sanitised key has nothing to trim. |
| Admin.IsStreamScreen | classes/class-admin.php:374-380 | Only an admin request with a `page` is a Stream screen. Every admin page whose slug starts with `wp_stream` is one. |
| Admin.BodyClass | classes/class-admin.php:374-410 | The result is the input classes, a space, the joined Stream classes and a trailing space. Off Stream screens nothing is added. On them, the words between are exactly `wp_stream_screen` and the sanitised page. |
| LegacyAdmin.FilterUserCaps | classes/class-wp-stream-admin.php:948-980 | The legacy filter runs the shared grant loop over the three view capabilities. |
| LegacyAdmin.UserCapsSpec | classes/class-wp-stream-admin.php:962-979 | Of the three view capabilities, only the first one requested is granted, and only when some role may view. Every other entry is unchanged. |
| LegacyAdmin.FilterRoleCaps | classes/class-wp-stream-admin.php:993-1005 | `cap` is added iff it is one of the three view capabilities and the role may view. |
| LegacyAdmin.AdminNotice | classes/class-wp-stream-admin.php:180-201 | A notice is shown iff the message is `settings_reset`, or `connected` with no migrate notice pending, and then it is that message's text. |
| LegacyAdmin.IsStreamScreen | classes/class-wp-stream-admin.php:469-477 | Only admin requests are Stream screens. Every page whose slug starts with `wp_stream` is one, and so is the notifications post type. |
| LegacyAdmin.StreamScreens | classes/class-wp-stream-admin.php:469-477 | The settings and account pages are Stream screens in the admin. |
| LegacyAdmin.ActiveSections | classes/class-wp-stream-admin.php:722-759 | A section is active iff it is the first and no tab is given, or it is named by the tab. No tab activates exactly the first, an unmatched tab activates none, and with distinct names at most one is active. |
| AdminUi.IpMatch | ui/admin.js:164 | A match gives four chunks of 1–3 digits. |
| AdminUi.Grep | ui/admin.js:173-179 | `$.grep` keeps at most every chunk; all four survive only if each is ≤ 255 and has no leading zero. |
| AdminUi.ChoiceIsQuad | ui/admin.js:161-189 | A term that passes the pattern and the chunk test is a dotted quad of numbers ≤ 255 written without leading zeros. |
| AdminUi.QuadIsChoice | ui/admin.js:161-189 | Every such dotted quad passes both tests. |
| AdminUi.CreateSearchChoice | ui/admin.js:161-189 | A choice is created iff the term is a canonical dotted quad, and then it is `{id: term, text: term}`. |
| AdminUi.KeptSpec | ui/admin.js:88-91 | A value gets a child input iff it is one of the values and is not null, `__placeholder__` or "". |
| AdminUi.Children | ui/admin.js:92 | One child input of the child class per value, in order. |
| AdminUi.RemoveClassSpec | ui/admin.js:84 | Exactly the elements of other classes stay, in order. |
| AdminUi.Reverse | ui/admin.js:88 | `reverse` puts the last value first. |
| AdminUi.ChangeHandler | ui/admin.js:80-94 | The old children are removed. Then one child per kept value is inserted after the placeholder, in the values' original order; `e.val` defaults to the input's comma-split value. |
| AdminUi.InsertChildren | ui/admin.js:88-93 | Inserting after the placeholder while walking the reversed values leaves the kept values in their original order. |
| AdminUi.RunStart | ui/admin.js:353-357 | The first row of the run of equal keys that contains a row. |
| AdminUi.GroupRecords | ui/admin.js:312-377 | Every row follows the rule: it is `first` iff its keys equal the next row's and differ from the previous row's, and hidden iff the previous row has its keys. A footer follows it iff its keys differ from the next and equal the previous. Group ids count the footers so far. With keys on every row, each footer reports its run's length − 1. |
| AdminUi.GroupRow | ui/admin.js:316-371 | For one row: it is `first` iff its keys equal the next row's and differ from the previous row's, and is then tagged with the current group id; otherwise it keeps the tag the previous row gave it. A footer carrying the group id and `itemCount` closes a run. `itemCount` counts the run's rows and restarts after a footer. `groupID` advances after a footer. The next row is hidden and tagged iff it has the same keys. |
| AdminUi.GroupedStep | ui/admin.js:316-371 | One run of the callback keeps the loop's state: the group id counts the footers, every row so far follows the row rule (and the count rule when every row has keys), and what the next row inherits agrees with the keys. |
| AdminUi.StepCounts | ui/admin.js:353-370 | With keys on every row, the footer of the new row reports its run's length − 1, and the new `itemCount` is the number of rows of the next row's run before it. |
| AdminUi.RunsWhenKeysPresent | ui/admin.js:346-374 | With keys on every row: a row is `first` iff it starts a run of two or more, hidden iff it continues one, and followed by a footer iff it ends one. No row is both first and hidden. |
| AdminUi.NearestFirst | ui/admin.js:396 | `prevAll( '.first' ).eq( 0 )` is the nearest earlier `first` row, if any. |
| AdminUi.RegenerateRowAlt | ui/admin.js:381-402 | Visible non-group rows alternate, starting with `alternate`. A visible group footer is `alternate` iff its nearest earlier `first` row is. Hidden rows are not. |
| AdminUi.StripesBetween | ui/admin.js:386-393 | Rows that are not striped do not advance the counter. |
| AdminUi.StripesAlternate | ui/admin.js:386-393 | Two consecutive striped rows get different classes. |
| AdminUi.FirstStripe | ui/admin.js:386-393 | The first striped row gets `alternate`. |
| AdminUi.TrimRows | ui/admin.js:578-591 | After prepending, a total above `show_on_screen` is cut to `show_on_screen` rows from the end; otherwise everything stays. |
| AdminUi.NewRowsKept | ui/admin.js:578-591 | When `show_on_screen` is at least the number of new rows, all new rows stay, first. |

## Findings

| source | as written | input that shows it | evidently intended | confidence | as-written member | corrected member |
|---|---|---|---|---|---|---|
| classes/class-admin.php:636 | `array( self::VIEW_CAP )`, but the class defines no `VIEW_CAP` constant, so every `user_has_cap` call raises an error | an administrator with the default options asking for `view_stream` | use `$this->view_cap` (`view_stream`), as the class's own property holds it | not executed | Admin.FilterUserCapsAsWritten | Admin.FilterUserCaps |
| classes/class-admin.php:665 | the same undefined `self::VIEW_CAP` in `_filter_role_caps` | any role and capability, e.g. `administrator` and `view_stream` | use `$this->view_cap` | not executed | Admin.FilterRoleCapsAsWritten | Admin.FilterRoleCaps |
| classes/connector.php:127 | `self::$delayed[$handle] = $args` on a static property the class never declares | `delayed_log( 'h', 'msg' )` | a declared static `$delayed = array()` table | not executed | Connector.DelayedLogAsWritten | Connector.DelayedLogs.DelayedLog |
| classes/connector.php:104-111 | `log` passes `$contexts` (an array) into the logger's `$context` slot and `$user_id` into its `$action` slot (the logger's signature is at classes/class-wp-stream-log.php:94) | `log( 'msg', array(), 1, array( 'posts' => 'updated' ), 5 )` stores context "Array", action "5" and the current user as author | one logger call per surviving context → action pair, with the user id in the user slot; the one-call-per-pair part is inferred | not executed | Connector.DelegatedRecordShape | Connector.IntendedRecordShape |
| classes/class-admin.php:749 | `isset( $args['disabled'] )` in `get_authors_record_meta`, while `ajax_filters` (line 698) passes it user objects (`stdClass` and `WP_User`), which do not implement `ArrayAccess` | the author search with any query that selects a user, e.g. the empty query, which always selects the `WP-CLI` pseudo-user | read `disabled` only from an array argument, so an object's row has `disabled` null | not executed | Admin.AuthorsRecordMetaAsWritten | Admin.GetAuthorsRecordMeta |

`Admin.AdministratorGrantLost` proves the first row's input: the corrected filter grants
the capability and the written one stops. `Connector.DelayedLogStoresOnlyWhenDeclared`
puts the third row's halves side by side: the written `delayed_log` stops, and the
declared table stores the arguments under the handle. `Connector.Log` keeps the fourth
row's call as written; `Connector.IntendedCalls` is the corrected call list.
`Admin.AjaxAuthorsRecordMetaFails` proves the fifth row's input: as written, every non-empty author
search stops in `get_authors_record_meta`. The same read appears in the legacy class at
classes/class-wp-stream-admin.php:1083.

## Left out

- Floating-point time: `microtime` and `round( stop - start, 3 ) * 1000` are modelled as integer milliseconds; `transaction_time` is stop − start.
- The ISO 8601 date, `vsprintf`, `maybe_serialize`/`maybe_unserialize`, `FILTER_VALIDATE_IP`, `posix_getuid`/`posix_getpwuid`, `get_users`, `count_users`, `get_userdata`, `get_post`, `get_post_custom`, `WP_Query`, `get_excluded_by_key`, `Alert::check_record` / `send_alert` and the `Author` class: abstract inputs, functions or oracles of the model.
- The database store (`WP_Stream::$db->store`): the `Logger` keeps the records it hands over in a sequence.
- `debug_backtrace` and the `STREAM_TESTS` test hook in `callback`: diagnostics with no effect on the modelled state.
- All HTML, CSS and script output, enqueueing, menus, meta boxes, AJAX wiring and JSON echoing; `admin_notices` of the registry only collects its notices.
- `in_array` and `==` are modelled as strict comparisons of strings. An integer key is modelled as its decimal string, as PHP normalises it. `is_numeric` accepts decimal integer strings only, without surrounding white space.
- `Caps.RoleCanView`: a missing or non-array `general_role_access` is modelled as "no role may view". That is PHP 7's `in_array`, which returns null with a warning. Under PHP 8 the same call raises a `TypeError` and the capability filter stops (classes/class-admin.php:598, classes/class-wp-stream-admin.php:924).
- `Admin.EmptyQueryMatchesAll`: follows PHP 8's `mb_strpos`, where an empty needle matches at offset 0. Under PHP 7, `mb_strpos` with an empty needle returns false, so an empty query would match no user.
- `Admin.PseudoUserFirst`: for the empty query it relies on the same PHP 8 reading of `mb_strpos`.
- `Php.PutAll`: models `array_merge` for string keys only. PHP renumbers integer keys, and a decimal string key such as "404" is an integer key. The label tables merged with it are keyed by slugs, so a purely numeric slug would be renumbered rather than kept.
- The filters `wp_stream_check_connector_is_excluded` (classes/class-wp-stream-connectors.php:119), `wp_stream_record_log` (:210), `wp_stream_ip_record_log` (:243) and `'wp_stream_list_table_hide_disabled_ ' . $setting_key` (includes/list-table.php:401) are modelled at their default. A hooked callback could exclude or re-admit a connector, turn logging off or on for a user or an IP, or change whether disabled items are hidden. `Connectors.Eligible`, `Connectors.IsLoggingEnabledForUser`, `Connectors.IsLoggingEnabledForIp` and `ListTable.HideDisabled` state only the defaults.
- `Php.IntVal`: leading white space is skipped, then a sign and decimal digits are read. PHP also reads the exponent form (`(int) "1e3"` is 1000), and it caps a value beyond `PHP_INT_MAX` or below `PHP_INT_MIN`. The model stops at the "e" (`"1e3"` gives 1) and its integers are unbounded. This reaches `StreamLog.BuildRecord` through the `object_id` and `author` casts, `Settings.PurgesRecords` through the TTL cast, and `StreamLog.AuthorOrRoleRule` through `absint`.
- `mb_strtolower` and `strtolower` are modelled as ASCII lower-casing; translations (`__`, `esc_html__`) as the identity.
- `ListTable.SortItems`: `uasort`'s comparator compares lower-cased labels with PHP's `<`. Numeric strings compare numerically, and labels equal up to case have no defined order. The model sorts by plain string order of the lower-cased label and states nothing about ties.
- The `filter_role_caps` hook name at classes/class-admin.php:113 versus the method `_filter_role_caps`: hook registration is not modelled, so the role filter is modelled as the method.
- The legacy `WP_Stream_Admin::ajax_filters` and `get_filter_value_by_id` are the same rules as the namespaced class's and are modelled once, by `Admin.AjaxAuthors` and `Admin.FilterValueById`. The legacy `$results_count` (undefined, used only in the unused `$extra`) changes no result.
- `ajax_filters` hands its selected users to `get_authors_record_meta` as objects (`Admin.AsObjects`); the avatar and display name of each author are inputs.
- `filter_user_caps` falling back to the current user when `$user` is not a `WP_User`: the user's roles and capability keys are parameters.
- `get_settings_translations` on a scalar `$labels['wp_stream']` is modelled as a fatal error (PHP refuses the nested write).
- `Connector.Log` keeps the logger slot mismatch as written; the corrected call list, `Connector.IntendedCalls`, is not used by another member, since the logger is reached only through its inputs.
- The DOM and jQuery: rows and inputs are sequences; `group_records` and `regenerate_row_alt` work on the rows' keys and visibility. The footer's text and column count are not modelled.
- `AdminUi.ChangeHandler`: `jQuery( '.' + childClass ).remove()` reaches the whole page; the model removes them among the placeholder's following siblings. `e.val.reverse()` also reverses `e.val` in place, which is not modelled.
- The live update's `alternate` classes for new rows (ui/admin.js:563-575) and the column hiding after it.
- `AdminUi.TrimRows`: `show_on_screen` is an integer, `None` for a value that is not a number.
- `get_active_connectors` (includes/settings.php:490-502), `register_settings`, `render_field` and `find_users`: settings screen plumbing outside the modelled core.
