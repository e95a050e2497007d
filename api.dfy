/**
 * The fail-soft data-access layer over the `website_info` table: fetch one
 * section, fetch everything grouped by section, update, create and delete.
 * The store client is not modelled; each call's answer is a parameter of
 * type `Reply`, and what a correct store answers is stated as a predicate
 * over the table (`AnswersSectionQuery`, `AnswersAllQuery`).
 */
module Api {
  import opened Records

  datatype StoreError = StoreError(message: string)

  /** What the store client delivers: the `{ data, error }` pair it resolves to, or an exception. */
  datatype Reply<T> = Reply(data: Option<T>, error: Option<StoreError>) | Thrown

  /**
   * A write a page sends to the store. Pages keep the writes they issue in
   * an `outbox`, so the model can say which call each action sends. The
   * page awaits each answer; only the create's answer changes what is shown,
   * by deciding which record gets appended.
   */
  datatype StoreCall =
    | UpdateContent(id: string, patch: ContentPatch)
    | CreateContent(draft: ContentDraft)
    | DeleteContent(id: string)
    | UpdateLeadStatus(leadId: string, status: string)
    | InsertLead(lead: ConsultationInsert)

  /**
   * The writes still awaited once the `k`-th of those in flight has been
   * answered: the others, in the order they were sent.
   */
  function Resolved<P>(inFlight: seq<P>, k: nat): (r: seq<P>)
    requires k < |inFlight|
    ensures |r| == |inFlight| - 1
    ensures r[..k] == inFlight[..k] && r[k..] == inFlight[k + 1..]
  {
    inFlight[..k] + inFlight[k + 1..]
  }

  /** The call resolved without an error and without throwing. */
  predicate Succeeded<T>(reply: Reply<T>) {
    reply.Reply? && reply.error.None?
  }

  // ---------------------------------------------------------------------
  // Query specifications: what a correct store answers
  // ---------------------------------------------------------------------

  ghost predicate SortedByDisplayOrder(rows: seq<ContentItem>) {
    forall i, j :: 0 <= i < j < |rows| ==> rows[i].displayOrder <= rows[j].displayOrder
  }

  /** The rows of `table` that are active and belong to `section`, in table order. */
  function ActiveInSection(table: seq<ContentItem>, section: string): (rows: seq<ContentItem>)
    ensures forall x :: multiset(rows)[x] == if x.section == section && x.isActive then multiset(table)[x] else 0
  {
    if table == [] then []
    else
      var rest := ActiveInSection(table[1..], section);
      assert table == [table[0]] + table[1..];
      if table[0].section == section && table[0].isActive then [table[0]] + rest else rest
  }

  /** `rows` is what `select * where section = s and is_active = true order by display_order` returns. */
  ghost predicate AnswersSectionQuery(table: seq<ContentItem>, section: string, rows: seq<ContentItem>) {
    multiset(rows) == multiset(ActiveInSection(table, section)) && SortedByDisplayOrder(rows)
  }

  /** `rows` is what `select * order by display_order` returns. */
  ghost predicate AnswersAllQuery(table: seq<ContentItem>, rows: seq<ContentItem>) {
    multiset(rows) == multiset(table) && SortedByDisplayOrder(rows)
  }

  /** A successful reply to the section query that carries rows carries its answer. */
  ghost predicate SectionReplyFrom(table: seq<ContentItem>, section: string, reply: Reply<seq<ContentItem>>) {
    Succeeded(reply) && reply.data.Some? ==> AnswersSectionQuery(table, section, reply.data.value)
  }

  /** A successful reply to the unfiltered query that carries rows carries its answer. */
  ghost predicate AllReplyFrom(table: seq<ContentItem>, reply: Reply<seq<ContentItem>>) {
    Succeeded(reply) && reply.data.Some? ==> AnswersAllQuery(table, reply.data.value)
  }

  // ---------------------------------------------------------------------
  // getWebsiteInfoBySection
  // ---------------------------------------------------------------------

  /** The rows a reply delivers: the data of an error-free answer (`data || []`), none on an error or exception. */
  function Delivered<T>(reply: Reply<seq<T>>): (rows: seq<T>)
    ensures !Succeeded(reply) ==> rows == []
    ensures Succeeded(reply) ==> rows == reply.data.GetOr([])
    ensures rows != [] ==> Succeeded(reply) && reply.data == Some(rows)
  {
    if Succeeded(reply) then reply.data.GetOr([]) else []
  }

  /**
   * `getWebsiteInfoBySection`: the query's answer as delivered. The section
   * is part of the query the store answers; the wrapper passes the rows on.
   */
  function GetWebsiteInfoBySection(section: string, reply: Reply<seq<ContentItem>>): (rows: seq<ContentItem>)
    ensures !Succeeded(reply) ==> rows == []
    ensures Succeeded(reply) ==> rows == reply.data.GetOr([])
    ensures rows != [] ==> reply == Reply(Some(rows), None)
  {
    Delivered(reply)
  }

  /**
   * Against a store that answers the section query correctly, the fetched
   * rows are active, belong to the section and ascend by display order;
   * when the store delivered rows they are exactly the matching table rows.
   */
  lemma SectionFetchSound(table: seq<ContentItem>, section: string, reply: Reply<seq<ContentItem>>)
    requires SectionReplyFrom(table, section, reply)
    ensures var rows := GetWebsiteInfoBySection(section, reply);
      && (forall x :: x in rows ==> x.section == section && x.isActive && x in table)
      && SortedByDisplayOrder(rows)
      && (Succeeded(reply) && reply.data.Some? ==> multiset(rows) == multiset(ActiveInSection(table, section)))
  {
    var rows := GetWebsiteInfoBySection(section, reply);
    if Succeeded(reply) && reply.data.Some? {
      assert AnswersSectionQuery(table, section, reply.data.value);
      forall x | x in rows ensures x.section == section && x.isActive && x in table {
        assert multiset(rows)[x] > 0;
        assert multiset(ActiveInSection(table, section))[x] > 0;
      }
    }
  }

  // ---------------------------------------------------------------------
  // getAllWebsiteInfo: grouping by section
  // ---------------------------------------------------------------------

  /** Rows of `rows` whose section is `section`, in input order. */
  function SectionRows(rows: seq<ContentItem>, section: string): (r: seq<ContentItem>)
    ensures |r| <= |rows|
    ensures forall x :: x in r ==> x.section == section && x in rows
    decreases |rows|
  {
    if rows == [] then []
    else
      var last := rows[|rows| - 1];
      SectionRows(rows[..|rows| - 1], section) + if last.section == section then [last] else []
  }

  /** A group holds each row of its section as often as the input does, and no other row. */
  lemma {:induction false} SectionRowsCount(rows: seq<ContentItem>, section: string, x: ContentItem)
    ensures multiset(SectionRows(rows, section))[x] == if x.section == section then multiset(rows)[x] else 0
    decreases |rows|
  {
    if rows != [] {
      var init := rows[..|rows| - 1];
      var last := rows[|rows| - 1];
      assert rows == init + [last];
      SectionRowsCount(init, section, x);
    }
  }

  ghost predicate NoDuplicates(keys: seq<string>) {
    forall i, j :: 0 <= i < j < |keys| ==> keys[i] != keys[j]
  }

  /** The distinct sections of `rows` in order of first appearance: the key order of the grouped record. */
  function SectionOrder(rows: seq<ContentItem>): (order: seq<string>)
    ensures NoDuplicates(order)
    decreases |rows|
  {
    if rows == [] then []
    else
      var before := SectionOrder(rows[..|rows| - 1]);
      var last := rows[|rows| - 1];
      if last.section in before then before else before + [last.section]
  }

  /** The key order lists exactly the sections that occur in the rows. */
  lemma {:induction false} SectionOrderMembers(rows: seq<ContentItem>)
    ensures forall x :: x in rows ==> x.section in SectionOrder(rows)
    ensures forall s :: s in SectionOrder(rows) ==> exists x :: x in rows && x.section == s
    decreases |rows|
  {
    if rows != [] {
      var init := rows[..|rows| - 1];
      assert rows == init + [rows[|rows| - 1]];
      SectionOrderMembers(init);
    }
  }

  function Lookup(groups: map<string, seq<ContentItem>>, section: string): (rows: seq<ContentItem>) {
    if section in groups then groups[section] else []
  }

  /** The grouped record as the `reduce` builds it: each row pushed onto its section's list. */
  function Grouped(rows: seq<ContentItem>): (groups: map<string, seq<ContentItem>>)
    ensures forall s :: s in groups ==> groups[s] != []
    decreases |rows|
  {
    if rows == [] then map[]
    else
      var groups := Grouped(rows[..|rows| - 1]);
      var last := rows[|rows| - 1];
      groups[last.section := Lookup(groups, last.section) + [last]]
  }

  /** The grouped record has one key per section of the rows, holding that section's rows in input order. */
  lemma {:induction false} GroupedBySection(rows: seq<ContentItem>)
    ensures forall s :: s in Grouped(rows) <==> s in SectionOrder(rows)
    ensures forall s :: Lookup(Grouped(rows), s) == SectionRows(rows, s)
    decreases |rows|
  {
    if rows != [] {
      GroupedBySection(rows[..|rows| - 1]);
    }
  }

  /** One more row: its section joins the key order if new, and the row joins the end of its group. */
  lemma GroupedStep(rows: seq<ContentItem>, item: ContentItem)
    ensures SectionOrder(rows + [item]) ==
      if item.section in Grouped(rows) then SectionOrder(rows) else SectionOrder(rows) + [item.section]
    ensures Grouped(rows + [item]) == Grouped(rows)[item.section := Lookup(Grouped(rows), item.section) + [item]]
  {
    assert (rows + [item])[..|rows|] == rows;
    GroupedBySection(rows);
  }

  /**
   * The names a plain object `{}` already answers to, inherited from
   * `Object.prototype`. For these, `acc[name]` is an inherited member, not a
   * list.
   */
  predicate InheritedName(name: string) {
    name in {"constructor", "hasOwnProperty", "isPrototypeOf", "propertyIsEnumerable",
             "toLocaleString", "toString", "valueOf", "__proto__",
             "__defineGetter__", "__defineSetter__", "__lookupGetter__", "__lookupSetter__"}
  }

  /** No row's section is an inherited name, so the `reduce` can file every row. */
  predicate NoInheritedSection(rows: seq<ContentItem>) {
    forall x :: x in rows ==> !InheritedName(x.section)
  }

  /**
   * The `reduce` callback for a row whose section is not an inherited name:
   * create the section's list when it is missing, then push the row. The
   * key order gains the section exactly when its list was created.
   */
  method PushRow(order: seq<string>, groups: map<string, seq<ContentItem>>, item: ContentItem)
    returns (order': seq<string>, groups': map<string, seq<ContentItem>>)
    ensures groups'.Keys == groups.Keys + {item.section}
    ensures groups' == groups[item.section := Lookup(groups, item.section) + [item]]
    ensures order' == if item.section in groups then order else order + [item.section]
  {
    order', groups' := order, groups;
    if item.section !in groups' {
      groups' := groups'[item.section := []];
      order' := order' + [item.section];
    }
    groups' := groups'[item.section := groups'[item.section] + [item]];
  }

  /**
   * The `reduce` of `getAllWebsiteInfo`: walk the rows in order, creating a
   * section's list the first time `acc[section]` is falsy and pushing each
   * row onto `acc[section]`. `order` is the order in which keys were
   * created. For an inherited name `acc[section]` is truthy, so no list is
   * created and the push throws: `ok` is then false.
   */
  method GroupBySection(rows: seq<ContentItem>) returns (ok: bool, order: seq<string>, groups: map<string, seq<ContentItem>>)
    ensures ok <==> NoInheritedSection(rows)
    ensures ok ==> order == SectionOrder(rows) && groups == Grouped(rows)
  {
    order, groups := [], map[];
    var i := 0;
    while i < |rows|
      invariant 0 <= i <= |rows|
      invariant NoInheritedSection(rows[..i])
      invariant order == SectionOrder(rows[..i])
      invariant groups == Grouped(rows[..i])
    {
      var item := rows[i];
      assert rows[..i + 1] == rows[..i] + [item];
      GroupedStep(rows[..i], item);
      if InheritedName(item.section) {
        // `acc[section]` is the inherited member: no list is created, and the push throws.
        assert rows[i] in rows;
        return false, order, groups;
      }
      order, groups := PushRow(order, groups, item);
      i := i + 1;
    }
    assert rows[..i] == rows;
    ok := true;
  }

  /**
   * `getAllWebsiteInfo`: the grouped rows of an error-free answer; `{}` on
   * an error, an exception, or a row the `reduce` cannot file.
   */
  method GetAllWebsiteInfo(reply: Reply<seq<ContentItem>>) returns (order: seq<string>, groups: map<string, seq<ContentItem>>)
    ensures !Succeeded(reply) || !NoInheritedSection(Delivered(reply)) ==> order == [] && groups == map[]
    ensures NoInheritedSection(Delivered(reply)) ==>
      order == SectionOrder(Delivered(reply)) && groups == Grouped(Delivered(reply))
  {
    if !Succeeded(reply) {
      return [], map[];
    }
    var ok;
    ok, order, groups := GroupBySection(reply.data.GetOr([]));
    if !ok {
      return [], map[];
    }
  }

  // ---------------------------------------------------------------------
  // Properties of the grouping
  // ---------------------------------------------------------------------

  /** Each group holds exactly the rows of its section, each as often as the input holds it. */
  lemma GroupedExact(rows: seq<ContentItem>, s: string, x: ContentItem)
    ensures multiset(Lookup(Grouped(rows), s))[x] == if x.section == s then multiset(rows)[x] else 0
  {
    GroupedBySection(rows);
    SectionRowsCount(rows, s, x);
  }

  /** The grouped record is empty exactly when there were no rows. */
  lemma GroupedEmptyIff(rows: seq<ContentItem>)
    ensures Grouped(rows).Keys == {} <==> rows == []
  {
    if rows != [] {
      GroupedBySection(rows);
      SectionOrderMembers(rows);
      assert rows[0] in rows;
      assert rows[0].section in Grouped(rows);
    }
  }

  /** A group is a subsequence of the input, so it ascends by display order when the input does. */
  lemma {:induction false} SectionRowsSorted(rows: seq<ContentItem>, s: string)
    requires SortedByDisplayOrder(rows)
    ensures SortedByDisplayOrder(SectionRows(rows, s))
    decreases |rows|
  {
    if rows != [] {
      var init := rows[..|rows| - 1];
      var last := rows[|rows| - 1];
      assert SortedByDisplayOrder(init);
      SectionRowsSorted(init, s);
      var g := SectionRows(init, s);
      forall x | x in g ensures x.displayOrder <= last.displayOrder {
        SectionRowsCount(init, s, x);
        assert multiset(init)[x] > 0;
        var k :| 0 <= k < |init| && init[k] == x;
        assert rows[k] == x;
      }
    }
  }

  /** Every group of the grouped record ascends by display order when the input does. */
  lemma GroupedSorted(rows: seq<ContentItem>)
    requires SortedByDisplayOrder(rows)
    ensures forall s :: s in Grouped(rows) ==> SortedByDisplayOrder(Grouped(rows)[s])
  {
    GroupedBySection(rows);
    forall s | s in Grouped(rows) ensures SortedByDisplayOrder(Grouped(rows)[s]) {
      SectionRowsSorted(rows, s);
      assert Lookup(Grouped(rows), s) == Grouped(rows)[s];
    }
  }

  /** The concatenation of the groups listed in `keys`. */
  function Concat(keys: seq<string>, groups: map<string, seq<ContentItem>>): (rows: seq<ContentItem>)
    requires forall s :: s in keys ==> s in groups
  {
    if keys == [] then [] else groups[keys[0]] + Concat(keys[1..], groups)
  }

  /** Every row of `groups[s]` has section `s`. */
  ghost predicate Filed(groups: map<string, seq<ContentItem>>) {
    forall s :: s in groups ==> forall x :: x in groups[s] ==> x.section == s
  }

  lemma {:induction false} ConcatCount(keys: seq<string>, groups: map<string, seq<ContentItem>>, x: ContentItem)
    requires forall s :: s in keys ==> s in groups
    requires NoDuplicates(keys) && Filed(groups)
    ensures multiset(Concat(keys, groups))[x] == if x.section in keys then multiset(groups[x.section])[x] else 0
  {
    if keys != [] {
      assert NoDuplicates(keys[1..]) by {
        forall i, j | 0 <= i < j < |keys[1..]| ensures keys[1..][i] != keys[1..][j] {
          assert keys[1..][i] == keys[i + 1] && keys[1..][j] == keys[j + 1];
        }
      }
      ConcatCount(keys[1..], groups, x);
      var head := groups[keys[0]];
      if x.section == keys[0] {
        assert x.section !in keys[1..];
      } else {
        assert x !in head;
        assert x.section in keys <==> x.section in keys[1..];
      }
    }
  }

  /**
   * The grouping is a partition of the input: concatenating the groups in
   * key order gives back the rows as a multiset, so no row is lost or
   * duplicated and the group sizes sum to the number of rows.
   */
  lemma GroupedIsPartition(rows: seq<ContentItem>)
    ensures Filed(Grouped(rows))
    ensures forall s :: s in SectionOrder(rows) ==> s in Grouped(rows)
    ensures multiset(Concat(SectionOrder(rows), Grouped(rows))) == multiset(rows)
    ensures |Concat(SectionOrder(rows), Grouped(rows))| == |rows|
  {
    var order, g := SectionOrder(rows), Grouped(rows);
    GroupedBySection(rows);
    SectionOrderMembers(rows);
    forall s: string, x: ContentItem | s in g && x in g[s] ensures x.section == s {
      SectionRowsCount(rows, s, x);
      assert Lookup(g, s) == g[s];
    }
    forall x ensures multiset(Concat(order, g))[x] == multiset(rows)[x] {
      ConcatCount(order, g, x);
      GroupedExact(rows, x.section, x);
    }
    assert multiset(Concat(order, g)) == multiset(rows);
    assert |multiset(Concat(order, g))| == |multiset(rows)|;
  }

  /**
   * Against a store that answers the unfiltered ordered query correctly,
   * the grouped record holds every table row, active or not, in the group
   * of its section, and every group ascends by display order.
   */
  lemma AllFetchSound(table: seq<ContentItem>, reply: Reply<seq<ContentItem>>)
    requires AllReplyFrom(table, reply)
    requires Succeeded(reply) && reply.data.Some?
    ensures var groups := Grouped(Delivered(reply));
      && (forall s, x :: multiset(Lookup(groups, s))[x] == if x.section == s then multiset(table)[x] else 0)
      && (forall s :: s in groups ==> SortedByDisplayOrder(groups[s]))
  {
    var rows := reply.data.value;
    assert Delivered(reply) == rows;
    assert multiset(rows) == multiset(table) && SortedByDisplayOrder(rows);
    var groups := Grouped(rows);
    forall s, x ensures multiset(Lookup(groups, s))[x] == if x.section == s then multiset(table)[x] else 0 {
      GroupedExact(rows, s, x);
    }
    GroupedSorted(rows);
  }

  // ---------------------------------------------------------------------
  // updateWebsiteInfo, createWebsiteInfo, deleteWebsiteInfo
  // ---------------------------------------------------------------------

  /** `updateWebsiteInfo`: the row the store returns, `null` on an error or exception. */
  function UpdateWebsiteInfo(id: string, patch: ContentPatch, reply: Reply<ContentItem>): (r: Option<ContentItem>)
    ensures !Succeeded(reply) ==> r == None
    ensures Succeeded(reply) ==> r == reply.data
    ensures r.Some? ==> reply == Reply(r, None)
  {
    if Succeeded(reply) then reply.data else None
  }

  /** `createWebsiteInfo`: the row the store returns, `null` on an error or exception. */
  function CreateWebsiteInfo(draft: ContentDraft, reply: Reply<ContentItem>): (r: Option<ContentItem>)
    ensures !Succeeded(reply) ==> r == None
    ensures Succeeded(reply) ==> r == reply.data
    ensures r.Some? ==> reply == Reply(r, None)
  {
    if Succeeded(reply) then reply.data else None
  }

  /** `deleteWebsiteInfo`: `true` exactly when the call neither failed nor threw. */
  function DeleteWebsiteInfo(id: string, reply: Reply<()>): (ok: bool)
    ensures ok <==> reply.Reply? && reply.error.None?
  {
    if reply.Thrown? then false
    else if reply.error.Some? then false
    else true
  }

  /** No two rows of the table share an id (the table's primary key). */
  ghost predicate UniqueIds(table: seq<ContentItem>) {
    forall i, j :: 0 <= i < j < |table| ==> table[i].id != table[j].id
  }

  /**
   * Against a store that applies the patch to the row with that id, an
   * error-free update delivers that patched row, which keeps the id unless
   * the patch itself sets one. When ids are unique the table fixes the
   * result: every stored row with that id, patched, is what the wrapper
   * returns, and the unpatched columns are that row's.
   */
  lemma UpdateFetchSound(table: seq<ContentItem>, id: string, patch: ContentPatch, reply: Reply<ContentItem>)
    requires Succeeded(reply) ==>
      exists row :: row in table && row.id == id && reply.data == Some(ApplyPatch(row, patch))
    ensures var r := UpdateWebsiteInfo(id, patch, reply);
      && (Succeeded(reply) <==> r.Some?)
      && (r.Some? ==> exists row :: row in table && row.id == id && r.value == ApplyPatch(row, patch))
      && (r.Some? && patch.id.None? ==> r.value.id == id)
    ensures UniqueIds(table) && Succeeded(reply) ==>
      forall row :: row in table && row.id == id ==>
        && UpdateWebsiteInfo(id, patch, reply) == Some(ApplyPatch(row, patch))
        && (patch.title.None? ==> UpdateWebsiteInfo(id, patch, reply).value.title == row.title)
        && (patch.section.None? ==> UpdateWebsiteInfo(id, patch, reply).value.section == row.section)
        && (patch.createdAt.None? ==> UpdateWebsiteInfo(id, patch, reply).value.createdAt == row.createdAt)
  {
    if UniqueIds(table) && Succeeded(reply) {
      var stored :| stored in table && stored.id == id && reply.data == Some(ApplyPatch(stored, patch));
      forall row | row in table && row.id == id
        ensures UpdateWebsiteInfo(id, patch, reply) == Some(ApplyPatch(row, patch))
      {
        var i :| 0 <= i < |table| && table[i] == row;
        var j :| 0 <= j < |table| && table[j] == stored;
        assert i == j;
      }
    }
  }
}
