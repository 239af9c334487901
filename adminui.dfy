/**
 * The client-side rules of the Stream admin screen: the IP address check of the
 * exclusion select boxes, the hidden child inputs a select box keeps in step with its
 * values, the grouping of consecutive records that share their keys, the zebra
 * striping of the visible rows, and the trimming of the list after a live update.
 * The page is given as sequences of rows and elements; jQuery's DOM updates become
 * the sequences and flags the loops compute.
 */
module AdminUi {
  import opened Php

  // ---------------------------------------------------------------------------------
  // createSearchChoice

  /** A run of one to three ASCII digits, as `\d{1,3}` matches it. */
  predicate DigitRun(s: string)
  {
    1 <= |s| <= 3 && AllDigits(s)
  }

  /**
   * `term.match( /^(\d{1,3})\.(\d{1,3})\.(\d{1,3})\.(\d{1,3})$/ )` without the whole
   * match: the four captured runs, or `None` when the pattern fails.
   */
  function IpMatch(term: string): (m: Option<seq<string>>)
    ensures m.Some? ==> |m.value| == 4 && forall i :: 0 <= i < 4 ==> DigitRun(m.value[i])
  {
    var parts := Split(term, '.');
    if |parts| == 4 && forall i :: 0 <= i < 4 ==> DigitRun(parts[i]) then Some(parts) else None
  }

  /** The `$.grep` test: `parseInt( chunk, 10 )` is at most 255 and writes back as `chunk`. */
  predicate ChunkOk(chunk: string)
    requires AllDigits(chunk)
  {
    DigitsValue(chunk) <= 255 && NatStr(DigitsValue(chunk)) == chunk
  }

  /** `$.grep( chunks, ... )`: the chunks that pass, in order. */
  function Grep(chunks: seq<string>): (r: seq<string>)
    requires forall i :: 0 <= i < |chunks| ==> AllDigits(chunks[i])
    ensures |r| <= |chunks|
    ensures |r| == |chunks| ==> forall i :: 0 <= i < |chunks| ==> ChunkOk(chunks[i])
  {
    if chunks == [] then []
    else (if ChunkOk(chunks[0]) then [chunks[0]] else []) + Grep(chunks[1..])
  }

  /** The term passes the pattern and all four chunks pass the `$.grep` test. */
  predicate PassesTests(term: string)
  {
    IpMatch(term).Some? && |Grep(IpMatch(term).value)| >= 4
  }

  /** The choice select2 offers for a typed term. */
  datatype Choice = Choice(id: string, text: string)

  /**
   * `createSearchChoice`: a choice for the term, or `None` for `return;` (undefined).
   * A choice is offered exactly for dotted-decimal IPv4 addresses, and it carries the
   * term as both its id and its text.
   */
  function CreateSearchChoice(term: string): (r: Option<Choice>)
    ensures r.Some? <==> DottedQuad(term)
    ensures r.Some? ==> r.value == Choice(term, term)
  {
    assert PassesTests(term) <==> DottedQuad(term) by {
      if PassesTests(term) {
        ChoiceIsQuad(term);
      }
      if DottedQuad(term) {
        var a: nat, b: nat, c: nat, d: nat :| a <= 255 && b <= 255 && c <= 255 && d <= 255 && term == Quad(a, b, c, d);
        QuadIsChoice(a, b, c, d);
      }
    }
    match IpMatch(term)
    case None => None
    case Some(chunks) => if |Grep(chunks)| < 4 then None else Some(Choice(term, term))
  }

  /** An IPv4 address in dotted-decimal form: four numbers up to 255, no leading zeros. */
  function Quad(a: nat, b: nat, c: nat, d: nat): string
  {
    NatStr(a) + "." + NatStr(b) + "." + NatStr(c) + "." + NatStr(d)
  }

  ghost predicate DottedQuad(term: string)
  {
    exists a: nat, b: nat, c: nat, d: nat | a <= 255 && b <= 255 && c <= 255 && d <= 255 :: term == Quad(a, b, c, d)
  }

  /** Four strings joined with dots. */
  lemma Join4(w: string, x: string, y: string, z: string)
    ensures Join([w, x, y, z], ".") == w + "." + x + "." + y + "." + z
  {
    var p := [w, x, y, z];
    assert p[1..] == [x, y, z] && p[1..][1..] == [y, z] && p[1..][1..][1..] == [z];
    assert Join([y, z], ".") == y + "." + z;
    assert Join([x, y, z], ".") == x + "." + (y + "." + z);
  }

  /** `Grep` keeps every chunk when every chunk passes. */
  lemma {:induction false} GrepAll(chunks: seq<string>)
    requires forall i :: 0 <= i < |chunks| ==> AllDigits(chunks[i]) && ChunkOk(chunks[i])
    ensures Grep(chunks) == chunks
  {
    if chunks != [] {
      GrepAll(chunks[1..]);
      assert chunks == [chunks[0]] + chunks[1..];
    }
  }

  /** The digits written by `NatStr` read back as the number. */
  lemma {:induction false} DigitsOfNatStr(n: nat)
    ensures DigitsValue(NatStr(n)) == n
  {
    if n >= 10 {
      DigitsOfNatStr(n / 10);
      var s := NatStr(n);
      assert s[..|s| - 1] == NatStr(n / 10);
    }
  }

  /** Numbers below 1000 take at most three digits. */
  lemma NatStrShort(n: nat)
    requires n < 1000
    ensures |NatStr(n)| <= 3
  {
    if n >= 10 {
      if n >= 100 { assert |NatStr(n / 10)| == |NatStr(n / 100)| + 1; }
    }
  }

  /** Every term that passes both tests is a dotted-decimal IPv4 address. */
  lemma ChoiceIsQuad(term: string)
    requires PassesTests(term)
    ensures DottedQuad(term)
  {
    var chunks := IpMatch(term).value;
    assert chunks == Split(term, '.');
    assert |Grep(chunks)| == 4;
    assert ChunkOk(chunks[0]) && ChunkOk(chunks[1]) && ChunkOk(chunks[2]) && ChunkOk(chunks[3]);
    var a, b, c, d := DigitsValue(chunks[0]), DigitsValue(chunks[1]), DigitsValue(chunks[2]), DigitsValue(chunks[3]);
    assert chunks == [NatStr(a), NatStr(b), NatStr(c), NatStr(d)];
    JoinSplit(term, '.');
    Join4(NatStr(a), NatStr(b), NatStr(c), NatStr(d));
    assert term == Quad(a, b, c, d);
  }

  /** A dotted-decimal IPv4 address passes the pattern and every chunk passes the test. */
  lemma QuadIsChoice(a: nat, b: nat, c: nat, d: nat)
    requires a <= 255 && b <= 255 && c <= 255 && d <= 255
    ensures PassesTests(Quad(a, b, c, d))
  {
    var term := Quad(a, b, c, d);
    var p := [NatStr(a), NatStr(b), NatStr(c), NatStr(d)];
    Join4(NatStr(a), NatStr(b), NatStr(c), NatStr(d));
    forall i | 0 <= i < 4 ensures '.' !in p[i] {
      assert forall j :: 0 <= j < |p[i]| ==> p[i][j] != '.';
    }
    SplitJoin(p, '.');
    NatStrShort(a); NatStrShort(b); NatStrShort(c); NatStrShort(d);
    DigitsOfNatStr(a); DigitsOfNatStr(b); DigitsOfNatStr(c); DigitsOfNatStr(d);
    assert IpMatch(term) == Some(p);
    GrepAll(p);
  }

  // ---------------------------------------------------------------------------------
  // stream_select2_change_handler

  /** A sibling input: its class and its value. */
  datatype Elem = Elem(cls: string, value: string)

  const PlaceholderValue: string := "__placeholder__"

  /** A value that gets a child input: not null, not the placeholder marker, not empty. */
  predicate Keeps(v: Option<string>)
  {
    v.Some? && v.value != PlaceholderValue && v.value != ""
  }

  /** The values that get a child input, in their original order. */
  function Kept(vals: seq<Option<string>>): seq<string>
  {
    if vals == [] then []
    else (if Keeps(vals[0]) then [vals[0].value] else []) + Kept(vals[1..])
  }

  /** A value gets a child input iff it is one of the values and is kept. */
  lemma {:induction false} KeptSpec(vals: seq<Option<string>>)
    ensures forall s :: s in Kept(vals) <==> Some(s) in vals && Keeps(Some(s))
  {
    if vals != [] {
      KeptSpec(vals[1..]);
      assert vals == [vals[0]] + vals[1..];
    }
  }

  /** The child inputs made for `vals`, one per value. */
  function Children(vals: seq<string>, childClass: string): (r: seq<Elem>)
    ensures |r| == |vals| && forall i :: 0 <= i < |vals| ==> r[i] == Elem(childClass, vals[i])
  {
    seq(|vals|, i requires 0 <= i < |vals| => Elem(childClass, vals[i]))
  }

  /** `jQuery( '.' + childClass ).remove()` on the placeholder's following siblings. */
  function RemoveClass(elems: seq<Elem>, childClass: string): seq<Elem>
  {
    if elems == [] then []
    else (if elems[0].cls != childClass then [elems[0]] else []) + RemoveClass(elems[1..], childClass)
  }

  /** Exactly the elements of another class stay, in their order. */
  lemma {:induction false} RemoveClassSpec(elems: seq<Elem>, childClass: string)
    ensures forall e :: e in RemoveClass(elems, childClass) <==> e in elems && e.cls != childClass
    ensures |RemoveClass(elems, childClass)| <= |elems|
    ensures (forall i :: 0 <= i < |elems| ==> elems[i].cls != childClass) ==> RemoveClass(elems, childClass) == elems
  {
    if elems != [] {
      RemoveClassSpec(elems[1..], childClass);
      assert elems == [elems[0]] + elems[1..];
    }
  }

  /** `Array.prototype.reverse`. */
  function Reverse<T>(s: seq<T>): (r: seq<T>)
    ensures |r| == |s| && forall i :: 0 <= i < |s| ==> r[i] == s[|s| - 1 - i]
  {
    if s == [] then [] else Reverse(s[1..]) + [s[0]]
  }

  /** `input.val().split( ',' )`. */
  function SplitValues(v: string): (r: seq<Option<string>>)
  {
    var parts := Split(v, ',');
    seq(|parts|, i requires 0 <= i < |parts| => Some(parts[i]))
  }

  /**
   * The change handler: the old child inputs after the placeholder go, then one input
   * per kept value is put right after the placeholder, last value first, so the new
   * inputs end up in the values' own order. `eVal` is `e.val` (`None` when undefined)
   * and `after` the elements that follow the placeholder.
   */
  method ChangeHandler(after: seq<Elem>, childClass: string, eVal: Option<seq<Option<string>>>, inputVal: string)
    returns (result: seq<Elem>)
    ensures var vals := if eVal.Some? then eVal.value else SplitValues(inputVal);
            result == Children(Kept(vals), childClass) + RemoveClass(after, childClass)
  {
    var rest := RemoveClass(after, childClass);
    var vals := if eVal.Some? then eVal.value else SplitValues(inputVal);
    result := InsertChildren(rest, childClass, vals);
  }

  /** `$.each( e.val.reverse(), ... )`: each kept value goes right after the placeholder. */
  method InsertChildren(rest: seq<Elem>, childClass: string, vals: seq<Option<string>>) returns (result: seq<Elem>)
    ensures result == Children(Kept(vals), childClass) + rest
  {
    var rev := Reverse(vals);
    var n := |vals|;
    result := rest;
    var i := 0;
    while i < n
      invariant 0 <= i <= n
      invariant result == Children(Kept(vals[n - i..]), childClass) + rest
    {
      var key := rev[i];
      ghost var k := n - i - 1;
      assert key == vals[k] && k + 1 == n - i;
      InsertStep(vals, k, childClass, rest);
      if Keeps(key) {
        result := [Elem(childClass, key.value)] + result;
      }
      i := i + 1;
      assert n - i == k;
    }
    assert vals[n - n..] == vals;
  }

  /** `Kept` on a suffix, one value at a time. */
  lemma KeptStep(vals: seq<Option<string>>, k: nat)
    requires k < |vals|
    ensures Kept(vals[k..]) == (if Keeps(vals[k]) then [vals[k].value] else []) + Kept(vals[k + 1..])
  {
    assert vals[k..][1..] == vals[k + 1..];
  }

  lemma ChildrenCons(v: string, vals: seq<string>, childClass: string)
    ensures Children([v] + vals, childClass) == [Elem(childClass, v)] + Children(vals, childClass)
  {
  }

  /** One value of the reversed walk: it is inserted in front iff it is kept. */
  lemma InsertStep(vals: seq<Option<string>>, k: nat, childClass: string, rest: seq<Elem>)
    requires k < |vals|
    ensures Children(Kept(vals[k..]), childClass) + rest ==
            (if Keeps(vals[k]) then [Elem(childClass, vals[k].value)] else []) + (Children(Kept(vals[k + 1..]), childClass) + rest)
  {
    KeptStep(vals, k);
    if Keeps(vals[k]) {
      ChildrenCons(vals[k].value, Kept(vals[k + 1..]), childClass);
    }
  }

  // ---------------------------------------------------------------------------------
  // group_records

  /** What `rowKeys.join()` gives for a row that is not there: four undefined keys. */
  const NoKeys: string := ",,,"

  /** The footer row inserted after a group: its group id and the number it reports. */
  datatype Footer = Footer(groupId: nat, count: nat)

  /**
   * What `group_records` does to one row: whether it gets class `first`, whether it is
   * hidden, the `data-group-id` it is tagged with, and the footer inserted after it.
   */
  datatype RowOut = RowOut(first: bool, hidden: bool, group: Option<nat>, footer: Option<Footer>)

  /** The keys of the row `next()` reaches from row `i`. */
  function NextKeys(keys: seq<string>, i: nat): string
  {
    if i + 1 < |keys| then keys[i + 1] else NoKeys
  }

  /**
   * The keys of the row `prev()` reaches from row `i`: a footer already inserted after
   * the previous row stands in between, and it has no keys.
   */
  function PrevKeys(keys: seq<string>, outs: seq<RowOut>, i: nat): string
    requires i <= |keys| && i <= |outs|
  {
    if i == 0 || outs[i - 1].footer.Some? then NoKeys else keys[i - 1]
  }

  /** The number of footers inserted after the rows of `outs`. */
  function Footers(outs: seq<RowOut>): nat
  {
    if outs == [] then 0 else Footers(outs[..|outs| - 1]) + if outs[|outs| - 1].footer.Some? then 1 else 0
  }

  /**
   * The rule row `i` follows: `first` iff its keys equal the next row's and differ from
   * the previous row's; hidden iff the row before it has the same keys; a footer iff
   * its keys differ from the next row's and equal the previous row's; the group id of a
   * tagged row and of a footer is one more than the number of footers before it.
   */
  predicate RowRule(keys: seq<string>, outs: seq<RowOut>, i: nat)
    requires i < |keys| && i < |outs|
  {
    var o := outs[i];
    var prev := PrevKeys(keys, outs, i);
    var next := NextKeys(keys, i);
    o.first == (keys[i] == next && keys[i] != prev)
    && o.hidden == (i > 0 && keys[i - 1] == keys[i])
    && o.footer.Some? == (keys[i] != next && keys[i] == prev)
    && o.group == (if o.first || o.hidden then Some(1 + Footers(outs[..i])) else None)
    && (o.footer.Some? ==> o.footer.value.groupId == 1 + Footers(outs[..i]))
  }

  /** The first row of the run of equal keys that row `i` belongs to. */
  function RunStart(keys: seq<string>, i: nat): (s: nat)
    requires i < |keys|
    ensures s <= i && (s == 0 || keys[s - 1] != keys[i])
    ensures forall j :: s <= j <= i ==> keys[j] == keys[i]
  {
    if i > 0 && keys[i - 1] == keys[i] then RunStart(keys, i - 1) else i
  }

  /** A footer reports the length of its run less one. */
  predicate CountRule(keys: seq<string>, outs: seq<RowOut>, i: nat)
    requires i < |keys| && i < |outs|
  {
    outs[i].footer.Some? ==> outs[i].footer.value.count == i - RunStart(keys, i)
  }

  predicate AllKeyed(keys: seq<string>)
  {
    forall i :: 0 <= i < |keys| ==> keys[i] != NoKeys
  }

  /**
   * `group_records` over rows whose joined keys are `keys`, with its counters
   * `itemCount` and `groupID`. Every row follows `RowRule`; when every row has keys,
   * every footer reports its run's length less one.
   */
  method GroupRecords(keys: seq<string>) returns (outs: seq<RowOut>)
    ensures |outs| == |keys|
    ensures forall i :: 0 <= i < |keys| ==> RowRule(keys, outs, i)
    ensures AllKeyed(keys) ==> forall i :: 0 <= i < |keys| ==> CountRule(keys, outs, i)
  {
    var n := |keys|;
    outs := [];
    var itemCount := 0;
    var groupId := 1;
    var curHidden := false;
    var curGroup: Option<nat> := None;
    var i := 0;
    while i < n
      invariant 0 <= i <= n && |outs| == i
      invariant Grouped(keys, outs, itemCount, groupId, curHidden, curGroup)
    {
      var o, nextItemCount, nextGroupId, nextHidden, nextGroup := GroupRow(keys, outs, itemCount, groupId, curHidden, curGroup);
      GroupedStep(keys, outs, itemCount, groupId, curHidden, curGroup, o, nextItemCount, nextGroupId, nextHidden, nextGroup);
      outs := outs + [o];
      itemCount, groupId, curHidden, curGroup := nextItemCount, nextGroupId, nextHidden, nextGroup;
      i := i + 1;
    }
  }

  /**
   * What the callback does for row `|outs|`: the row is `first` iff its keys equal the
   * next row's and differ from what `prev()` reaches, a `first` row is tagged with the
   * current group id and any other row keeps the tag the previous row gave it; a footer
   * with the group id and the count closes a run; `itemCount` counts the rows of the
   * run and restarts after a footer, `groupID` moves on after a footer; and the next
   * row is hidden and tagged iff it has the same keys.
   */
  predicate RowStep(keys: seq<string>, outs: seq<RowOut>, itemCount: nat, groupId: nat, curHidden: bool,
                    curGroup: Option<nat>, o: RowOut, itemCount': nat, groupId': nat, nextHidden: bool,
                    nextGroup: Option<nat>)
    requires |outs| < |keys|
  {
    var i := |outs|;
    var same := keys[i] == NextKeys(keys, i);
    && o.first == (same && keys[i] != PrevKeys(keys, outs, i))
    && o.hidden == curHidden
    && o.group == (if o.first then Some(groupId) else curGroup)
    && o.footer.Some? == (!same && keys[i] == PrevKeys(keys, outs, i))
    && (o.footer.Some? ==> o.footer.value == Footer(groupId, itemCount))
    && itemCount' == (if same then itemCount + 1 else if o.footer.Some? then 0 else itemCount)
    && groupId' == (if o.footer.Some? then groupId + 1 else groupId)
    && nextHidden == (same && i + 1 < |keys|)
    && nextGroup == (if nextHidden then Some(groupId) else None)
  }

  /**
   * The state the loop keeps after the rows of `outs`: the group id counts the footers,
   * every row so far follows `RowRule` (and `CountRule` when every row has keys), and
   * what the next row inherits (hidden, its tag, the running count) agrees with the keys.
   */
  predicate Grouped(keys: seq<string>, outs: seq<RowOut>, itemCount: nat, groupId: nat, curHidden: bool,
                    curGroup: Option<nat>)
  {
    var i := |outs|;
    && i <= |keys|
    && groupId == 1 + Footers(outs)
    && (forall j :: 0 <= j < i ==> RowRule(keys, outs, j))
    && (i < |keys| ==> curHidden == (i > 0 && keys[i - 1] == keys[i]))
    && curGroup == (if curHidden then Some(groupId) else None)
    && (AllKeyed(keys) ==> forall j :: 0 <= j < i ==> CountRule(keys, outs, j))
    && (AllKeyed(keys) && i < |keys| ==> itemCount == i - RunStart(keys, i))
  }

  /** One run of the callback keeps `Grouped`. */
  lemma GroupedStep(keys: seq<string>, outs: seq<RowOut>, itemCount: nat, groupId: nat, curHidden: bool,
                    curGroup: Option<nat>, o: RowOut, itemCount': nat, groupId': nat, nextHidden: bool,
                    nextGroup: Option<nat>)
    requires |outs| < |keys| && Grouped(keys, outs, itemCount, groupId, curHidden, curGroup)
    requires RowStep(keys, outs, itemCount, groupId, curHidden, curGroup, o, itemCount', groupId', nextHidden, nextGroup)
    ensures Grouped(keys, outs + [o], itemCount', groupId', nextHidden, nextGroup)
  {
    GroupStep(keys, outs, o);
    StepRows(keys, outs, itemCount, groupId, curHidden, curGroup, o, itemCount', groupId', nextHidden, nextGroup);
    if AllKeyed(keys) {
      StepCounts(keys, outs, itemCount, groupId, curHidden, curGroup, o, itemCount', groupId', nextHidden, nextGroup);
    }
  }

  /** The row the callback appends follows `RowRule`, and the earlier rows still do. */
  lemma StepRows(keys: seq<string>, outs: seq<RowOut>, itemCount: nat, groupId: nat, curHidden: bool,
                 curGroup: Option<nat>, o: RowOut, itemCount': nat, groupId': nat, nextHidden: bool,
                 nextGroup: Option<nat>)
    requires |outs| < |keys| && Grouped(keys, outs, itemCount, groupId, curHidden, curGroup)
    requires RowStep(keys, outs, itemCount, groupId, curHidden, curGroup, o, itemCount', groupId', nextHidden, nextGroup)
    ensures forall j :: 0 <= j < |outs| + 1 ==> RowRule(keys, outs + [o], j)
  {
    GroupStep(keys, outs, o);
    NewRow(keys, outs, o);
  }

  /**
   * When every row has keys, the appended row's footer reports its run's length less
   * one, and the new count is the number of rows of the next row's run before it.
   */
  lemma StepCounts(keys: seq<string>, outs: seq<RowOut>, itemCount: nat, groupId: nat, curHidden: bool,
                   curGroup: Option<nat>, o: RowOut, itemCount': nat, groupId': nat, nextHidden: bool,
                   nextGroup: Option<nat>)
    requires |outs| < |keys| && AllKeyed(keys) && Grouped(keys, outs, itemCount, groupId, curHidden, curGroup)
    requires RowStep(keys, outs, itemCount, groupId, curHidden, curGroup, o, itemCount', groupId', nextHidden, nextGroup)
    ensures forall j :: 0 <= j < |outs| + 1 ==> CountRule(keys, outs + [o], j)
    ensures |outs| + 1 < |keys| ==> itemCount' == |outs| + 1 - RunStart(keys, |outs| + 1)
  {
    CountStep(keys, outs);
    GroupStep(keys, outs, o);
    NewCount(keys, outs, o);
  }

  /**
   * The callback `group_records` runs for row `|outs|`, given whether the previous row
   * hid it and tagged it: whether the row is `first` and its tag, the footer inserted
   * after it, the updated counters, and whether and how it hides and tags the next row.
   */
  method GroupRow(keys: seq<string>, outs: seq<RowOut>, itemCount: nat, groupId: nat,
                  curHidden: bool, curGroup: Option<nat>)
    returns (o: RowOut, itemCount': nat, groupId': nat, nextHidden: bool, nextGroup: Option<nat>)
    requires |outs| < |keys|
    ensures RowStep(keys, outs, itemCount, groupId, curHidden, curGroup, o, itemCount', groupId', nextHidden, nextGroup)
  {
    var i := |outs|;
    var rowKeys := keys[i];
    var prevKeys := PrevKeys(keys, outs, i);
    var nextKeys := NextKeys(keys, i);
    var isFirst := rowKeys == nextKeys && rowKeys != prevKeys;
    var rowGroup := if isFirst then Some(groupId) else curGroup;
    nextHidden, nextGroup := false, None;
    itemCount', groupId' := itemCount, groupId;
    if rowKeys == nextKeys {
      nextHidden := i + 1 < |keys|;
      nextGroup := if i + 1 < |keys| then Some(groupId) else None;
      itemCount' := itemCount' + 1;
    }
    var footer: Option<Footer> := None;
    if rowKeys != nextKeys && rowKeys == prevKeys {
      footer := Some(Footer(groupId, itemCount'));
      itemCount' := 0;
      groupId' := groupId' + 1;
    }
    o := RowOut(isFirst, curHidden, rowGroup, footer);
  }

  /** A row whose keys differ from what `prev()` reaches starts a run of its own. */
  lemma FreshRun(keys: seq<string>, outs: seq<RowOut>)
    requires 0 < |outs| < |keys| && AllKeyed(keys)
    requires RowRule(keys, outs, |outs| - 1)
    requires keys[|outs|] != PrevKeys(keys, outs, |outs|)
    ensures RunStart(keys, |outs|) == |outs|
  {
  }

  /**
   * The run bookkeeping of one step: the next row continues this row's run iff their
   * keys are equal, and a row that differs from what `prev()` reaches starts its run.
   */
  lemma CountStep(keys: seq<string>, outs: seq<RowOut>)
    requires |outs| < |keys| && AllKeyed(keys)
    requires |outs| > 0 ==> RowRule(keys, outs, |outs| - 1)
    ensures var i := |outs|;
            i + 1 < |keys| ==> RunStart(keys, i + 1) == if keys[i] == NextKeys(keys, i) then RunStart(keys, i) else i + 1
    ensures keys[|outs|] != PrevKeys(keys, outs, |outs|) ==> RunStart(keys, |outs|) == |outs|
  {
    if |outs| > 0 && keys[|outs|] != PrevKeys(keys, outs, |outs|) {
      FreshRun(keys, outs);
    }
  }

  /** The outcome the loop appends for row `|outs|` follows `RowRule` there. */
  lemma NewRow(keys: seq<string>, outs: seq<RowOut>, o: RowOut)
    requires |outs| < |keys|
    requires var i := |outs|;
             o.first == (keys[i] == NextKeys(keys, i) && keys[i] != PrevKeys(keys, outs, i))
             && o.hidden == (i > 0 && keys[i - 1] == keys[i])
             && o.footer.Some? == (keys[i] != NextKeys(keys, i) && keys[i] == PrevKeys(keys, outs, i))
             && o.group == (if o.first || o.hidden then Some(1 + Footers(outs)) else None)
             && (o.footer.Some? ==> o.footer.value.groupId == 1 + Footers(outs))
    ensures RowRule(keys, outs + [o], |outs|)
  {
    var m := outs + [o];
    assert m[..|outs|] == outs;
    assert m[|outs|] == o;
    if |outs| > 0 {
      assert m[|outs| - 1] == outs[|outs| - 1];
    }
  }

  /** A footer counted from the start of its run satisfies `CountRule`. */
  lemma NewCount(keys: seq<string>, outs: seq<RowOut>, o: RowOut)
    requires |outs| < |keys|
    requires o.footer.Some? ==> o.footer.value.count == |outs| - RunStart(keys, |outs|)
    ensures CountRule(keys, outs + [o], |outs|)
  {
    assert (outs + [o])[|outs|] == o;
  }

  /** Appending one more row's outcome leaves what an earlier row `j` sees unchanged. */
  lemma RowFrame(keys: seq<string>, outs: seq<RowOut>, o: RowOut, j: nat)
    requires j < |outs| < |keys|
    ensures RowRule(keys, outs + [o], j) == RowRule(keys, outs, j)
    ensures CountRule(keys, outs + [o], j) == CountRule(keys, outs, j)
  {
    var m := outs + [o];
    assert m[..j] == outs[..j];
    assert m[j] == outs[j];
    if j > 0 {
      assert m[j - 1] == outs[j - 1];
    }
  }

  /**
   * Appending row `i`'s outcome keeps the rules of the earlier rows, and the new row
   * sees the same neighbours as before.
   */
  lemma GroupStep(keys: seq<string>, outs: seq<RowOut>, o: RowOut)
    requires |outs| < |keys|
    ensures (outs + [o])[..|outs|] == outs
    ensures PrevKeys(keys, outs + [o], |outs|) == PrevKeys(keys, outs, |outs|)
    ensures Footers(outs + [o]) == Footers(outs) + if o.footer.Some? then 1 else 0
    ensures forall j :: 0 <= j < |outs| ==> RowRule(keys, outs + [o], j) == RowRule(keys, outs, j)
    ensures forall j :: 0 <= j < |outs| ==> CountRule(keys, outs + [o], j) == CountRule(keys, outs, j)
  {
    var m := outs + [o];
    assert m[..|m| - 1] == outs;
    forall j | 0 <= j < |outs|
      ensures RowRule(keys, m, j) == RowRule(keys, outs, j)
      ensures CountRule(keys, m, j) == CountRule(keys, outs, j)
    {
      RowFrame(keys, outs, o, j);
    }
  }

  /** Row `i` read as a run of equal keys, when every row has keys. */
  lemma RunAt(keys: seq<string>, outs: seq<RowOut>, i: nat)
    requires |outs| == |keys| && AllKeyed(keys) && i < |keys|
    requires RowRule(keys, outs, i)
    requires i > 0 ==> RowRule(keys, outs, i - 1)
    ensures outs[i].footer.Some? <==> i > 0 && keys[i - 1] == keys[i] && (i + 1 == |keys| || keys[i + 1] != keys[i])
    ensures outs[i].first <==> i + 1 < |keys| && keys[i + 1] == keys[i] && (i == 0 || keys[i - 1] != keys[i])
    ensures outs[i].hidden <==> i > 0 && keys[i - 1] == keys[i]
    ensures !(outs[i].first && outs[i].hidden)
  {
    var prev := PrevKeys(keys, outs, i);
    if i > 0 && outs[i - 1].footer.Some? {
      assert NextKeys(keys, i - 1) == keys[i];
      assert keys[i - 1] != keys[i];
      assert prev == NoKeys && keys[i] != NoKeys;
    }
    assert prev == keys[i] <==> i > 0 && keys[i - 1] == keys[i];
    var next := NextKeys(keys, i);
    assert next == keys[i] <==> i + 1 < |keys| && keys[i + 1] == keys[i];
  }

  /**
   * When every row has keys, the rules read as runs of equal keys: a row is `first`
   * iff it starts a run of two or more, hidden iff it continues a run, and a footer
   * follows exactly the last row of a run of two or more.
   */
  lemma RunsWhenKeysPresent(keys: seq<string>, outs: seq<RowOut>)
    requires |outs| == |keys| && AllKeyed(keys)
    requires forall i :: 0 <= i < |keys| ==> RowRule(keys, outs, i)
    ensures forall i {:trigger outs[i]} :: 0 <= i < |keys| ==>
              (outs[i].footer.Some? <==> i > 0 && keys[i - 1] == keys[i] && (i + 1 == |keys| || keys[i + 1] != keys[i]))
    ensures forall i {:trigger outs[i]} :: 0 <= i < |keys| ==>
              (outs[i].first <==> i + 1 < |keys| && keys[i + 1] == keys[i] && (i == 0 || keys[i - 1] != keys[i]))
    ensures forall i {:trigger outs[i]} :: 0 <= i < |keys| ==> (outs[i].hidden <==> i > 0 && keys[i - 1] == keys[i])
    ensures forall i {:trigger outs[i]} :: 0 <= i < |keys| ==> !(outs[i].first && outs[i].hidden)
  {
    forall i {:trigger outs[i]} | 0 <= i < |keys|
      ensures outs[i].footer.Some? <==> i > 0 && keys[i - 1] == keys[i] && (i + 1 == |keys| || keys[i + 1] != keys[i])
      ensures outs[i].first <==> i + 1 < |keys| && keys[i + 1] == keys[i] && (i == 0 || keys[i - 1] != keys[i])
      ensures outs[i].hidden <==> i > 0 && keys[i - 1] == keys[i]
      ensures !(outs[i].first && outs[i].hidden)
    {
      if i > 0 { assert RowRule(keys, outs, i - 1); }
      RunAt(keys, outs, i);
    }
  }

  // ---------------------------------------------------------------------------------
  // regenerate_row_alt

  /** A row of the list: whether it is visible, a group footer, and of class `first`. */
  datatype Row = Row(visible: bool, isGroup: bool, isFirst: bool)

  /** The rows the zebra loop walks: visible rows that are not group footers. */
  predicate Striped(r: Row)
  {
    r.visible && !r.isGroup
  }

  /** The number of striped rows before row `i`. */
  function StripesBefore(rows: seq<Row>, i: nat): nat
    requires i <= |rows|
  {
    if i == 0 then 0 else StripesBefore(rows, i - 1) + if Striped(rows[i - 1]) then 1 else 0
  }

  /** `prevAll( '.first' ).eq( 0 )`: the nearest row before `i` of class `first`. */
  function NearestFirst(rows: seq<Row>, i: nat): (r: Option<nat>)
    requires i <= |rows|
    ensures r.Some? ==> r.value < i && rows[r.value].isFirst && forall j :: r.value < j < i ==> !rows[j].isFirst
    ensures r.None? ==> forall j :: 0 <= j < i ==> !rows[j].isFirst
  {
    if i == 0 then None else if rows[i - 1].isFirst then Some(i - 1) else NearestFirst(rows, i - 1)
  }

  /**
   * `regenerate_row_alt`: every `alternate` class is removed; the striped rows get it
   * at even positions among themselves; then a visible footer gets it iff the nearest
   * `first` row before it has it.
   */
  method RegenerateRowAlt(rows: seq<Row>) returns (alt: seq<bool>)
    ensures |alt| == |rows|
    ensures forall i :: 0 <= i < |rows| && Striped(rows[i]) ==> alt[i] == (StripesBefore(rows, i) % 2 == 0)
    ensures forall i :: 0 <= i < |rows| && rows[i].visible && rows[i].isGroup ==>
              alt[i] == (var f := NearestFirst(rows, i);
                         f.Some? && Striped(rows[f.value]) && StripesBefore(rows, f.value) % 2 == 0)
    ensures forall i :: 0 <= i < |rows| && !rows[i].visible ==> !alt[i]
  {
    var stripes: seq<bool> := [];
    var itemCount := 0;
    var i := 0;
    while i < |rows|
      invariant 0 <= i <= |rows| && |stripes| == i
      invariant itemCount == StripesBefore(rows, i)
      invariant forall j :: 0 <= j < i ==> stripes[j] == (Striped(rows[j]) && StripesBefore(rows, j) % 2 == 0)
    {
      var on := false;
      if Striped(rows[i]) {
        on := itemCount % 2 == 0;
        itemCount := itemCount + 1;
      }
      stripes := stripes + [on];
      i := i + 1;
    }
    alt := stripes;
    i := 0;
    while i < |rows|
      invariant 0 <= i <= |rows| && |alt| == |rows|
      invariant forall j :: 0 <= j < |rows| && !(j < i && rows[j].visible && rows[j].isGroup) ==> alt[j] == stripes[j]
      invariant forall j :: 0 <= j < i && rows[j].visible && rows[j].isGroup ==>
                  alt[j] == (var f := NearestFirst(rows, j); f.Some? && stripes[f.value])
    {
      if rows[i].visible && rows[i].isGroup {
        var f := NearestFirst(rows, i);
        alt := alt[i := f.Some? && stripes[f.value]];
      }
      i := i + 1;
    }
  }

  /** The count of striped rows grows by one over each striped row and by nothing else. */
  lemma {:induction false} StripesBetween(rows: seq<Row>, i: nat, j: nat)
    requires i < j <= |rows|
    requires forall k :: i < k < j ==> !Striped(rows[k])
    ensures StripesBefore(rows, j) == StripesBefore(rows, i) + if Striped(rows[i]) then 1 else 0
    decreases j
  {
    if j > i + 1 {
      StripesBetween(rows, i, j - 1);
    }
  }

  /**
   * The striping alternates: of two striped rows with no striped row between them,
   * exactly one is `alternate`, and the first striped row always is.
   */
  lemma StripesAlternate(rows: seq<Row>, i: nat, j: nat)
    requires i < j < |rows| && Striped(rows[i]) && Striped(rows[j])
    requires forall k :: i < k < j ==> !Striped(rows[k])
    ensures (StripesBefore(rows, i) % 2 == 0) != (StripesBefore(rows, j) % 2 == 0)
  {
    StripesBetween(rows, i, j);
  }

  /** No striped row comes before the first striped row, so it is always `alternate`. */
  lemma {:induction false} FirstStripe(rows: seq<Row>, i: nat)
    requires i <= |rows|
    requires forall k :: 0 <= k < i ==> !Striped(rows[k])
    ensures StripesBefore(rows, i) == 0
  {
    if i > 0 { FirstStripe(rows, i - 1); }
  }

  // ---------------------------------------------------------------------------------
  // Live update

  /**
   * After a live update prepends `newRows`, the rows beyond `show_on_screen` are
   * removed from the end (`slice( slice_rows ).remove()` with a negative
   * `slice_rows`). `showOnScreen` is the numeric value of the per-page field, `None`
   * when it is not a number (the difference is then `NaN` and nothing is removed).
   */
  function TrimRows<T>(newRows: seq<T>, current: seq<T>, showOnScreen: Option<int>): (r: seq<T>)
    ensures var all := newRows + current;
            |r| <= |all| && r == all[..|r|]
    ensures showOnScreen.None? || showOnScreen.value >= |newRows| + |current| ==> r == newRows + current
    ensures showOnScreen.Some? && showOnScreen.value < |newRows| + |current| ==>
              |r| == if showOnScreen.value < 0 then 0 else showOnScreen.value
  {
    var all := newRows + current;
    if showOnScreen.None? then all
    else
      var sliceRows := showOnScreen.value - (|newRows| + |current|);
      if sliceRows < 0 then
        var start := if |all| + sliceRows < 0 then 0 else |all| + sliceRows;
        all[..start]
      else all
  }

  /** The new rows are never cut while the page holds at least as many rows as arrived. */
  lemma NewRowsKept<T>(newRows: seq<T>, current: seq<T>, showOnScreen: Option<int>)
    requires showOnScreen.None? || showOnScreen.value >= |newRows|
    ensures |TrimRows(newRows, current, showOnScreen)| >= |newRows|
    ensures TrimRows(newRows, current, showOnScreen)[..|newRows|] == newRows
  {
    var r := TrimRows(newRows, current, showOnScreen);
    assert r == (newRows + current)[..|r|];
    assert (newRows + current)[..|newRows|] == newRows;
  }
}
