/**
 * The website-content editor: an in-memory cache from section name to the
 * section's records, loaded once from the store (or from a fixed demo
 * dataset when the load yields nothing), and changed locally by edit,
 * toggle-active, delete and create whatever the store answers to the write
 * each of them sends.
 */
module WebsiteAdmin {
  import opened Records
  import Api

  type Cache = map<string, seq<ContentItem>>

  // ---------------------------------------------------------------------
  // The demo dataset
  // ---------------------------------------------------------------------

  /** Key order of the demo dataset, as its literal lists them. */
  const DemoOrder: seq<string> := ["home", "about", "about_benefits", "faq"]

  /** The wording of one demo record. */
  datatype DemoText = DemoText(title: string, content: string)

  /** The wording of the demo dataset, kept apart from its structure. */
  datatype DemoCopy = DemoCopy(
    home: DemoText, about: DemoText, mission: string, vision: string,
    costReduction: DemoText, improvedOutcomes: DemoText,
    gettingStarted: DemoText, industries: DemoText)

  const SiteCopy: DemoCopy := DemoCopy(
    DemoText("AI Solutions That Work as Hard as You Do",
      "From intelligent chatbots to automated workflows, we help businesses run smoother, faster and smarter."),
    DemoText("Maximise Efficiency and Impact",
      "Why Partner with Us? The key advantages of adopting AI in your business."),
    "We believe AI should empower people, not replace them. Our mission is to create smarter businesses that put people first whist still increasing productivity and time.",
    "A future where businesses grow effortlessly, people work smarter, and technology bridges gaps\U{e2}\U{20ac}\U{201d}not creates them.",
    DemoText("Cost reduction",
      "Optimise processes and reduce operational expenses by automating repetitive tasks and minimising errors."),
    DemoText("Improved outcomes",
      "Leverage powerful data insights to enhance decision-making, boost performance & achieve measurable results."),
    DemoText("How do I get started with Nex Solutions?",
      "To get started, simply fill in the contact form below or visit our Contact Page to connect with us directly. We'll be in touch within the same business day."),
    DemoText("What industries do you serve?",
      "We provide solutions across various sectors including but not limited to retail, finance, healthcare, and more. If your business requires process automation or custom systems, we can help."))

  /** A demo section's records are all active, filed under that section, and numbered 1, 2, ... in display order. */
  predicate DemoSectionShape(items: seq<ContentItem>, section: string) {
    forall j :: 0 <= j < |items| ==>
      items[j].section == section && items[j].isActive && items[j].displayOrder == j + 1
  }

  /** One active demo record, stamped `stamp` at creation and last update. */
  function DemoItem(id: string, section: string, text: DemoText, metadata: map<string, Json>,
                    order: int, stamp: string): (r: ContentItem)
    ensures r.id == id && r.section == section && r.title == text.title
    ensures r.displayOrder == order && r.isActive
    ensures r.createdAt == stamp && r.updatedAt == stamp
  {
    ContentItem(id, section, text.title, Some(text.content), JObject(metadata), None, order, true, stamp, stamp)
  }

  /**
   * The demo dataset, worded by `copy`. Its twelve timestamps are each read
   * from the clock while the page module loads; the one `stamp` stands for
   * all of them.
   */
  function DemoSectionsFrom(copy: DemoCopy, stamp: string): (r: Cache)
    ensures r.Keys == set s | s in DemoOrder
    ensures forall s :: s in r ==> DemoSectionShape(r[s], s)
    ensures forall s, x :: s in r && x in r[s] ==> x.createdAt == stamp && x.updatedAt == stamp
  {
    map[
      "home" := [
        DemoItem("1", "home", copy.home,
          map["subtitle" := JString("probably harder"), "cta_text" := JString("Let's Get Automating"),
              "cta_link" := JString("#consultation")], 1, stamp)],
      "about" := [
        DemoItem("2", "about", copy.about,
          map["mission" := JString(copy.mission), "vision" := JString(copy.vision)], 1, stamp)],
      "about_benefits" := [
        DemoItem("3", "about_benefits", copy.costReduction, map["icon" := JString("TrendingUp")], 1, stamp),
        DemoItem("4", "about_benefits", copy.improvedOutcomes, map["icon" := JString("Target")], 2, stamp)],
      "faq" := [
        DemoItem("5", "faq", copy.gettingStarted, map[], 1, stamp),
        DemoItem("6", "faq", copy.industries, map[], 2, stamp)]
    ]
  }

  /** The demo dataset the page falls back on: the four demo sections, each active and numbered in display order. */
  function DemoSections(stamp: string): (r: Cache)
    ensures r.Keys == set s | s in DemoOrder
    ensures forall s :: s in r ==> DemoSectionShape(r[s], s)
  {
    DemoSectionsFrom(SiteCopy, stamp)
  }

  /** The demo dataset has exactly the sections of its key order, each listed once. */
  lemma DemoKeys(copy: DemoCopy, stamp: string)
    ensures DemoSectionsFrom(copy, stamp).Keys == set s | s in DemoOrder
    ensures Api.NoDuplicates(DemoOrder)
  {
    assert DemoSectionsFrom(copy, stamp).Keys == {"home", "about", "about_benefits", "faq"};
  }

  /** The demo sections hold 1, 1, 2 and 2 records, all active, filed under their own section and numbered in display order. */
  lemma DemoShape(copy: DemoCopy, stamp: string)
    ensures var demo := DemoSectionsFrom(copy, stamp);
      && |demo["home"]| == 1 && |demo["about"]| == 1
      && |demo["about_benefits"]| == 2 && |demo["faq"]| == 2
      && forall s :: s in demo ==> DemoSectionShape(demo[s], s)
  {
  }

  // ---------------------------------------------------------------------
  // Expand / collapse
  // ---------------------------------------------------------------------

  /** Whether a section shows as expanded: a section with no flag reads as collapsed. */
  predicate IsExpanded(flags: map<string, bool>, section: string) {
    section in flags && flags[section]
  }

  /** The `forEach` that gives every listed section the flag `false`. */
  method Collapsed(keys: seq<string>) returns (flags: map<string, bool>)
    ensures flags.Keys == set s | s in keys
    ensures forall s :: !IsExpanded(flags, s)
  {
    flags := map[];
    var i := 0;
    while i < |keys|
      invariant 0 <= i <= |keys|
      invariant flags.Keys == set s | s in keys[..i]
      invariant forall s :: s in flags ==> !flags[s]
    {
      assert keys[..i + 1] == keys[..i] + [keys[i]];
      flags := flags[keys[i] := false];
      i := i + 1;
    }
    assert keys[..i] == keys;
  }

  /** `toggleSection`: the flag of `section` reads the other way round, every other flag is kept. */
  function Toggled(flags: map<string, bool>, section: string): (r: map<string, bool>)
    ensures IsExpanded(r, section) == !IsExpanded(flags, section)
    ensures forall s :: s != section ==> (s in r <==> s in flags) && IsExpanded(r, s) == IsExpanded(flags, s)
    ensures forall s :: s != section && s in flags ==> r[s] == flags[s]
  {
    flags[section := !IsExpanded(flags, section)]
  }

  /**
   * Toggling a section twice gives every section its old reading, and gives
   * back the very same flags when the section had a flag to begin with.
   */
  lemma ToggledTwice(flags: map<string, bool>, section: string)
    ensures forall s :: IsExpanded(Toggled(Toggled(flags, section), section), s) == IsExpanded(flags, s)
    ensures section in flags ==> Toggled(Toggled(flags, section), section) == flags
  {
    var twice := Toggled(Toggled(flags, section), section);
    if section in flags {
      assert twice.Keys == flags.Keys;
    }
  }

  // ---------------------------------------------------------------------
  // The cache changes, as functions of the old cache
  // ---------------------------------------------------------------------

  /** `findIndex` by id: the first position holding `id`, or -1. */
  function FindIndexById(items: seq<ContentItem>, id: string): (k: int)
    ensures -1 <= k < |items|
    ensures k >= 0 ==> items[k].id == id && forall j :: 0 <= j < k ==> items[j].id != id
    ensures k == -1 ==> forall j :: 0 <= j < |items| ==> items[j].id != id
  {
    if items == [] then -1
    else if items[0].id == id then 0
    else
      var k := FindIndexById(items[1..], id);
      if k == -1 then -1 else k + 1
  }

  /** Replacing the first record with `id` by another record with that id leaves it the first. */
  lemma FindIndexAfterReplace(items: seq<ContentItem>, id: string, v: ContentItem)
    requires FindIndexById(items, id) != -1 && v.id == id
    ensures FindIndexById(items[FindIndexById(items, id) := v], id) == FindIndexById(items, id)
  {
    var k := FindIndexById(items, id);
    var items' := items[k := v];
    assert items'[k].id == id;
    assert forall j :: 0 <= j < k ==> items'[j] == items[j];
  }

  /**
   * Save-edit: the first record with the draft's id in the draft's section
   * becomes the draft stamped with `now`; nothing else changes, and when no
   * record has that id the cache is kept as it is.
   */
  function SaveEditInCache(cache: Cache, draft: ContentItem, now: string): (r: Cache)
    ensures r.Keys == cache.Keys
    ensures forall s :: s in cache && s != draft.section ==> r[s] == cache[s]
    ensures FindIndexById(Api.Lookup(cache, draft.section), draft.id) == -1 ==> r == cache
    ensures var items, k := Api.Lookup(cache, draft.section), FindIndexById(Api.Lookup(cache, draft.section), draft.id);
      k != -1 ==>
        && |r[draft.section]| == |items|
        && r[draft.section][k] == draft.(updatedAt := now)
        && forall j :: 0 <= j < |items| && j != k ==> r[draft.section][j] == items[j]
  {
    var items := Api.Lookup(cache, draft.section);
    var k := FindIndexById(items, draft.id);
    if k == -1 then cache else cache[draft.section := items[k := draft.(updatedAt := now)]]
  }

  /**
   * Toggle-active: the first record with the item's id in the item's
   * section gets the opposite of its cached `is_active` and `updated_at`
   * `now`, its other fields kept; every other record is kept.
   */
  function ToggleActiveInCache(cache: Cache, item: ContentItem, now: string): (r: Cache)
    ensures r.Keys == cache.Keys
    ensures forall s :: s in cache && s != item.section ==> r[s] == cache[s]
    ensures FindIndexById(Api.Lookup(cache, item.section), item.id) == -1 ==> r == cache
    ensures var items, k := Api.Lookup(cache, item.section), FindIndexById(Api.Lookup(cache, item.section), item.id);
      k != -1 ==>
        && |r[item.section]| == |items|
        && r[item.section][k].isActive == !items[k].isActive
        && r[item.section][k] == items[k].(isActive := r[item.section][k].isActive, updatedAt := now)
        && forall j :: 0 <= j < |items| && j != k ==> r[item.section][j] == items[j]
  {
    var items := Api.Lookup(cache, item.section);
    var k := FindIndexById(items, item.id);
    if k == -1 then cache
    else cache[item.section := items[k := items[k].(isActive := !items[k].isActive, updatedAt := now)]]
  }

  /** Two toggles give the record back its `is_active`; only its `updated_at` differs. */
  lemma ToggleActiveTwice(cache: Cache, item: ContentItem, t1: string, t2: string)
    ensures var items, k := Api.Lookup(cache, item.section), FindIndexById(Api.Lookup(cache, item.section), item.id);
      ToggleActiveInCache(ToggleActiveInCache(cache, item, t1), item, t2) ==
        if k == -1 then cache else cache[item.section := items[k := items[k].(updatedAt := t2)]]
  {
    var items := Api.Lookup(cache, item.section);
    var k := FindIndexById(items, item.id);
    if k != -1 {
      var once := ToggleActiveInCache(cache, item, t1);
      var flipped := items[k].(isActive := !items[k].isActive, updatedAt := t1);
      assert Api.Lookup(once, item.section) == items[k := flipped];
      FindIndexAfterReplace(items, item.id, flipped);
      assert items[k := flipped][k := flipped.(isActive := !flipped.isActive, updatedAt := t2)]
          == items[k := items[k].(updatedAt := t2)];
    }
  }

  /** The `filter` that drops every record with `id`, keeping the others in order. */
  function WithoutId(items: seq<ContentItem>, id: string): (r: seq<ContentItem>)
    ensures forall x :: x in r ==> x.id != id && x in items
    ensures forall x: ContentItem :: x.id != id ==> multiset(r)[x] == multiset(items)[x]
    ensures |r| <= |items|
  {
    if items == [] then []
    else
      assert items == [items[0]] + items[1..];
      var rest := WithoutId(items[1..], id);
      if items[0].id != id then [items[0]] + rest else rest
  }

  lemma {:induction false} WithoutIdIdempotent(items: seq<ContentItem>, id: string)
    ensures WithoutId(WithoutId(items, id), id) == WithoutId(items, id)
  {
    if items != [] {
      WithoutIdIdempotent(items[1..], id);
      if items[0].id != id {
        assert ([items[0]] + WithoutId(items[1..], id))[1..] == WithoutId(items[1..], id);
      }
    }
  }

  /** The `filter` keeps a single record exactly when its id is not `id`. */
  lemma WithoutIdSingleton(x: ContentItem, id: string)
    ensures WithoutId([x], id) == if x.id == id then [] else [x]
  {
    assert [x][1..] == [];
  }

  /** The `filter` works piece by piece, so the kept records stay in their old order. */
  lemma {:induction false} WithoutIdConcat(a: seq<ContentItem>, b: seq<ContentItem>, id: string)
    ensures WithoutId(a + b, id) == WithoutId(a, id) + WithoutId(b, id)
  {
    if a != [] {
      assert (a + b)[0] == a[0];
      assert (a + b)[1..] == a[1..] + b;
      WithoutIdConcat(a[1..], b, id);
    } else {
      assert a + b == b;
    }
  }

  /**
   * Delete: the section's list loses every record with `id` and keeps the
   * others with their multiplicities; other sections are untouched. The
   * section's key is written even when it was missing.
   */
  function DeleteFromCache(cache: Cache, id: string, section: string): (r: Cache)
    ensures r.Keys == cache.Keys + {section}
    ensures forall s :: s in cache && s != section ==> r[s] == cache[s]
    ensures forall x :: x in r[section] ==> x.id != id && x in Api.Lookup(cache, section)
    ensures forall x: ContentItem :: x.id != id ==> multiset(r[section])[x] == multiset(Api.Lookup(cache, section))[x]
  {
    cache[section := WithoutId(Api.Lookup(cache, section), id)]
  }

  /** Deleting the same id twice is deleting it once. */
  lemma DeleteIdempotent(cache: Cache, id: string, section: string)
    ensures DeleteFromCache(DeleteFromCache(cache, id, section), id, section) == DeleteFromCache(cache, id, section)
  {
    WithoutIdIdempotent(Api.Lookup(cache, section), id);
  }

  /** Save-new: exactly one record joins the end of the section's list; other sections are untouched. */
  function AppendToCache(cache: Cache, section: string, item: ContentItem): (r: Cache)
    ensures r.Keys == cache.Keys + {section}
    ensures forall s :: s in cache && s != section ==> r[s] == cache[s]
    ensures |r[section]| == |Api.Lookup(cache, section)| + 1
    ensures r[section][..|Api.Lookup(cache, section)|] == Api.Lookup(cache, section)
    ensures r[section][|Api.Lookup(cache, section)|] == item
  {
    cache[section := Api.Lookup(cache, section) + [item]]
  }

  /** Save-edit keeps each record filed under its own section. */
  lemma SaveEditKeepsFiled(cache: Cache, draft: ContentItem, now: string)
    requires Api.Filed(cache)
    ensures Api.Filed(SaveEditInCache(cache, draft, now))
  {
    var items := Api.Lookup(cache, draft.section);
    var k := FindIndexById(items, draft.id);
    if k != -1 {
      var r := SaveEditInCache(cache, draft, now);
      forall x: ContentItem | x in r[draft.section] ensures x.section == draft.section {
        var j :| 0 <= j < |r[draft.section]| && r[draft.section][j] == x;
        if j != k { assert x == items[j]; }
      }
    }
  }

  /** Toggle-active keeps each record filed under its own section. */
  lemma ToggleActiveKeepsFiled(cache: Cache, item: ContentItem, now: string)
    requires Api.Filed(cache)
    ensures Api.Filed(ToggleActiveInCache(cache, item, now))
  {
    var items := Api.Lookup(cache, item.section);
    var k := FindIndexById(items, item.id);
    if k != -1 {
      var r := ToggleActiveInCache(cache, item, now);
      forall x: ContentItem | x in r[item.section] ensures x.section == item.section {
        var j :| 0 <= j < |r[item.section]| && r[item.section][j] == x;
        assert items[j] in items;
      }
    }
  }

  /** Delete keeps each record filed under its own section. */
  lemma DeleteKeepsFiled(cache: Cache, id: string, section: string)
    requires Api.Filed(cache)
    ensures Api.Filed(DeleteFromCache(cache, id, section))
  {
  }

  /** Appending a record of the section keeps each record filed under its own section. */
  lemma AppendKeepsFiled(cache: Cache, section: string, item: ContentItem)
    requires Api.Filed(cache) && item.section == section
    ensures Api.Filed(AppendToCache(cache, section, item))
  {
    var r := AppendToCache(cache, section, item);
    var n := |Api.Lookup(cache, section)|;
    forall x: ContentItem | x in r[section] ensures x.section == section {
      var j :| 0 <= j < |r[section]| && r[section][j] == x;
      if j < n { assert x == r[section][..n][j]; }
    }
  }

  // ---------------------------------------------------------------------
  // Drafts, payloads and the locally synthesised record
  // ---------------------------------------------------------------------

  /** `handleAddNew`: an empty draft for `section` whose display order is the section's current length. */
  function NewDraft(cache: Cache, section: string): (d: ContentDraft)
    ensures d.section == section && d.title == ""
    ensures d.displayOrder == Some(|Api.Lookup(cache, section)|)
    ensures d.displayOrder == Some(0) <==> section !in cache || cache[section] == []
  {
    ContentDraft(section, "", Some(""), Some(EmptyObject), None, Some(|Api.Lookup(cache, section)|), None)
  }

  /**
   * The record synthesised when the store does not return a created one:
   * empty content and image become `null`, falsy metadata becomes `{}`, a
   * missing display order becomes 0, and the record is active unless the
   * draft says `false`.
   */
  function LocalRecord(draft: ContentDraft, newId: string, now: string): (r: ContentItem)
    ensures r.id == newId && r.section == draft.section && r.title == draft.title
    ensures r.isActive <==> draft.isActive != Some(false)
    ensures r.content == if draft.content == Some("") then None else draft.content
    ensures r.imageUrl == if draft.imageUrl == Some("") then None else draft.imageUrl
    ensures r.displayOrder == draft.displayOrder.GetOr(0)
    ensures draft.metadata.Some? && Truthy(draft.metadata.value) ==> r.metadata == draft.metadata.value
    ensures !(draft.metadata.Some? && Truthy(draft.metadata.value)) ==> r.metadata == EmptyObject
    ensures r.createdAt == now && r.updatedAt == now
  {
    ContentItem(
      newId,
      draft.section,
      draft.title,
      if draft.content.Some? && draft.content.value != "" then draft.content else None,
      if draft.metadata.Some? && Truthy(draft.metadata.value) then draft.metadata.value else EmptyObject,
      if draft.imageUrl.Some? && draft.imageUrl.value != "" then draft.imageUrl else None,
      if draft.displayOrder.Some? && draft.displayOrder.value != 0 then draft.displayOrder.value else 0,
      draft.isActive != Some(false),
      now,
      now)
  }

  /** The record save-new appends: the store's when it returned one, the synthesised one otherwise. */
  function CreatedOrLocal(draft: ContentDraft, reply: Api.Reply<ContentItem>, newId: string, now: string): (r: ContentItem)
    ensures !Api.Succeeded(reply) || reply.data.None? ==> r == LocalRecord(draft, newId, now)
    ensures Api.Succeeded(reply) && reply.data.Some? ==> r == reply.data.value
  {
    match Api.CreateWebsiteInfo(draft, reply)
    case Some(created) => created
    case None => LocalRecord(draft, newId, now)
  }

  /**
   * The patch save-edit sends: the six editable fields of the draft. Applied
   * to any row it gives the draft, with the row's own id, section and
   * timestamps.
   */
  function EditPatch(draft: ContentItem): (patch: ContentPatch)
    ensures patch.id.None? && patch.section.None? && patch.createdAt.None? && patch.updatedAt.None?
    ensures forall row :: (ApplyPatch(row, patch) ==
      draft.(id := row.id, section := row.section, createdAt := row.createdAt, updatedAt := row.updatedAt))
  {
    NoChange.(title := Some(draft.title), content := Some(draft.content), metadata := Some(draft.metadata),
              imageUrl := Some(draft.imageUrl), displayOrder := Some(draft.displayOrder), isActive := Some(draft.isActive))
  }

  /** The patch toggle-active sends: `is_active` only, the opposite of the clicked record's. */
  function TogglePatch(item: ContentItem): (patch: ContentPatch)
    ensures forall row :: ApplyPatch(row, patch) == row.(isActive := !item.isActive)
  {
    NoChange.(isActive := Some(!item.isActive))
  }

  /**
   * When the store applies the edit patch to the stored row the draft was
   * opened from, its row and the cached one agree on everything but
   * `updated_at`.
   */
  lemma EditPatchAgreesWithCache(row: ContentItem, draft: ContentItem, now: string)
    requires row.id == draft.id && row.section == draft.section && row.createdAt == draft.createdAt
    ensures ApplyPatch(row, EditPatch(draft)).(updatedAt := now) == draft.(updatedAt := now)
  {
  }

  /** A new item in a section of three, with only its title filled in and the store failing, is the fourth, active, at display order 3. */
  lemma CreateInSectionOfThree(cache: Cache, section: string, title: string, newId: string, now: string)
    requires section in cache && |cache[section]| == 3 && title != ""
    ensures var draft := NewDraft(cache, section).(title := title);
      var r := AppendToCache(cache, section, LocalRecord(draft, newId, now));
      |r[section]| == 4 && r[section][3].displayOrder == 3 && r[section][3].isActive && r[section][3].title == title
  {
  }

  // ---------------------------------------------------------------------
  // Section names
  // ---------------------------------------------------------------------

  /** `toUpperCase` on one character, for the ASCII letters. */
  function ToUpper(c: char): (upper: char) {
    if 'a' <= c <= 'z' then (c as int - 32) as char else c
  }

  /** `split(sep)`: the pieces between separators, always at least one. */
  function Split(s: string, sep: char): (parts: seq<string>)
    ensures |parts| >= 1
  {
    if s == [] then [""]
    else
      var rest := Split(s[1..], sep);
      if s[0] == sep then [""] + rest else [[s[0]] + rest[0]] + rest[1..]
  }

  /** `join(sep)`. */
  function Join(parts: seq<string>, sep: char): (s: string)
    requires |parts| >= 1
  {
    if |parts| == 1 then parts[0] else parts[0] + [sep] + Join(parts[1..], sep)
  }

  /** `charAt(0).toUpperCase() + slice(1)`. */
  function Capitalize(word: string): (r: string) {
    if word == [] then [] else [ToUpper(word[0])] + word[1..]
  }

  function CapitalizeAll(words: seq<string>): (r: seq<string>)
    ensures |r| == |words|
  {
    if words == [] then [] else [Capitalize(words[0])] + CapitalizeAll(words[1..])
  }

  /**
   * `formatSectionName`: split on `_`, capitalise each word, join with
   * spaces. The result has the length of the section name; each `_` reads
   * as a space, the first character and each character after `_` are
   * upper-cased, and all others are kept.
   */
  function FormatSectionName(section: string): (r: string)
    ensures |r| == |section|
    ensures forall i :: 0 <= i < |section| ==> r[i] == FormattedChar(section, i)
  {
    FormatSectionNameChars(section);
    Join(CapitalizeAll(Split(section, '_')), ' ')
  }

  /** Splitting and joining on the same separator gives back the string. */
  lemma {:induction false} JoinSplit(s: string, sep: char)
    ensures Join(Split(s, sep), sep) == s
    ensures forall p :: p in Split(s, sep) ==> sep !in p
  {
    if s != [] {
      JoinSplit(s[1..], sep);
      var rest := Split(s[1..], sep);
      if s[0] == sep {
        assert ([""] + rest)[1..] == rest;
      } else {
        JoinCons(s[0], rest[0], rest[1..], sep);
        assert [rest[0]] + rest[1..] == rest;
      }
    }
  }

  lemma JoinCons(c: char, w: string, rest: seq<string>, sep: char)
    ensures Join([[c] + w] + rest, sep) == [c] + Join([w] + rest, sep)
  {
    if rest != [] {
      assert ([[c] + w] + rest)[1..] == rest;
      assert ([w] + rest)[1..] == rest;
    }
  }

  /** The character-level reading of the format: `_` becomes a space, a word's first letter is upper-cased. */
  function TitleCase(s: string, atWordStart: bool): (r: string)
    ensures |r| == |s|
  {
    if s == [] then []
    else if s[0] == '_' then [' '] + TitleCase(s[1..], true)
    else [if atWordStart then ToUpper(s[0]) else s[0]] + TitleCase(s[1..], false)
  }

  lemma {:induction false} FormatIsTitleCase(s: string)
    ensures Join(CapitalizeAll(Split(s, '_')), ' ') == TitleCase(s, true)
    ensures var p := Split(s, '_'); Join([p[0]] + CapitalizeAll(p[1..]), ' ') == TitleCase(s, false)
  {
    if s != [] {
      FormatIsTitleCase(s[1..]);
      var rest := Split(s[1..], '_');
      if s[0] == '_' {
        assert ([""] + rest)[1..] == rest;
        assert CapitalizeAll([""] + rest) == [""] + CapitalizeAll(rest);
        assert ([""] + CapitalizeAll(rest))[1..] == CapitalizeAll(rest);
      } else {
        var p := [[s[0]] + rest[0]] + rest[1..];
        assert p[1..] == rest[1..];
        assert CapitalizeAll(p) == [[ToUpper(s[0])] + rest[0]] + CapitalizeAll(rest[1..]);
        JoinCons(ToUpper(s[0]), rest[0], CapitalizeAll(rest[1..]), ' ');
        JoinCons(s[0], rest[0], CapitalizeAll(rest[1..]), ' ');
      }
    }
  }

  lemma {:induction false} TitleCaseAt(s: string, atWordStart: bool, i: int)
    requires 0 <= i < |s|
    ensures TitleCase(s, atWordStart)[i] ==
      if s[i] == '_' then ' '
      else if (if i == 0 then atWordStart else s[i - 1] == '_') then ToUpper(s[i])
      else s[i]
  {
    if i > 0 {
      TitleCaseAt(s[1..], s[0] == '_', i - 1);
    }
  }

  /** The character the format puts at position `i` of `s`. */
  function FormattedChar(s: string, i: int): (c: char)
    requires 0 <= i < |s|
  {
    if s[i] == '_' then ' '
    else if i == 0 || s[i - 1] == '_' then ToUpper(s[i])
    else s[i]
  }

  /** Split, capitalise and join, read character by character. */
  lemma FormatSectionNameChars(s: string)
    ensures |Join(CapitalizeAll(Split(s, '_')), ' ')| == |s|
    ensures forall i :: 0 <= i < |s| ==> Join(CapitalizeAll(Split(s, '_')), ' ')[i] == FormattedChar(s, i)
  {
    FormatIsTitleCase(s);
    forall i | 0 <= i < |s| ensures Join(CapitalizeAll(Split(s, '_')), ' ')[i] == FormattedChar(s, i) {
      TitleCaseAt(s, true, i);
    }
  }

  // ---------------------------------------------------------------------
  // The editor page
  // ---------------------------------------------------------------------

  /** Which text input a change comes from. */
  datatype TextField = Title | Content | ImageUrl

  /** The record with the typed text in `field`; every other column kept. */
  function WithText(item: ContentItem, field: TextField, value: string): (r: ContentItem)
    ensures r.title == (if field == Title then value else item.title)
    ensures r.content == (if field == Content then Some(value) else item.content)
    ensures r.imageUrl == (if field == ImageUrl then Some(value) else item.imageUrl)
    ensures r.(title := item.title, content := item.content, imageUrl := item.imageUrl) == item
  {
    match field
    case Title => item.(title := value)
    case Content => item.(content := Some(value))
    case ImageUrl => item.(imageUrl := Some(value))
  }

  /** The draft with the typed text in `field`; every other field kept. */
  function DraftWithText(draft: ContentDraft, field: TextField, value: string): (r: ContentDraft)
    ensures r.title == (if field == Title then value else draft.title)
    ensures r.content == (if field == Content then Some(value) else draft.content)
    ensures r.imageUrl == (if field == ImageUrl then Some(value) else draft.imageUrl)
    ensures r.(title := draft.title, content := draft.content, imageUrl := draft.imageUrl) == draft
  {
    match field
    case Title => draft.(title := value)
    case Content => draft.(content := Some(value))
    case ImageUrl => draft.(imageUrl := Some(value))
  }

  /**
   * A write sent to the store whose answer has not come back yet, with what
   * its handler captured when it was sent.
   */
  datatype Pending =
    | SavingEdit(edited: ContentItem)
    | Toggling(item: ContentItem)
    | Deleting(id: string, section: string)
    | Creating(draft: ContentDraft, newId: string, createdAt: string)

  /** The state of the editor page. */
  class Editor {
    var websiteInfo: Cache
    var loading: bool
    var expandedSections: map<string, bool>
    var editingItem: Option<ContentItem>
    var newItem: Option<ContentDraft>
    var sections: seq<string>
    /** The writes sent to the store, in order. */
    var outbox: seq<Api.StoreCall>
    /** The writes whose answers are still awaited, in the order they were sent. */
    var inFlight: seq<Pending>

    constructor ()
      ensures websiteInfo == map[] && loading && expandedSections == map[]
      ensures editingItem == None && newItem == None && sections == [] && outbox == [] && inFlight == []
    {
      websiteInfo, loading, expandedSections := map[], true, map[];
      editingItem, newItem, sections, outbox, inFlight := None, None, [], [], [];
    }

    /**
     * `fetchWebsiteInfo`: adopt the grouped rows when the grouping has any
     * key, the demo dataset otherwise (no rows, an error, or a row the
     * `reduce` cannot file); list the adopted keys and collapse them all.
     */
    method FetchWebsiteInfo(reply: Api.Reply<seq<ContentItem>>, demoStamp: string)
      modifies this`websiteInfo, this`sections, this`expandedSections, this`loading
      ensures var rows := Api.Delivered(reply);
        if rows != [] && Api.NoInheritedSection(rows) then
          websiteInfo == Api.Grouped(rows) && sections == Api.SectionOrder(rows)
        else websiteInfo == DemoSections(demoStamp) && sections == DemoOrder
      ensures expandedSections.Keys == websiteInfo.Keys == set s | s in sections
      ensures forall s :: !IsExpanded(expandedSections, s)
      ensures Api.Filed(websiteInfo)
      ensures !loading
    {
      loading := true;
      var order, data := Api.GetAllWebsiteInfo(reply);
      Api.GroupedEmptyIff(Api.Delivered(reply));
      if data.Keys != {} {
        Api.GroupedBySection(Api.Delivered(reply));
        Api.GroupedIsPartition(Api.Delivered(reply));
        websiteInfo := data;
        sections := order;
      } else {
        websiteInfo := DemoSections(demoStamp);
        sections := DemoOrder;
      }
      expandedSections := Collapsed(sections);
      loading := false;
    }

    method ToggleSection(section: string)
      modifies this`expandedSections
      ensures expandedSections == Toggled(old(expandedSections), section)
    {
      expandedSections := expandedSections[section := !(section in expandedSections && expandedSections[section])];
    }

    method HandleEdit(item: ContentItem)
      modifies this`editingItem
      ensures editingItem == Some(item)
    {
      editingItem := Some(item);
    }

    method HandleCancelEdit()
      modifies this`editingItem
      ensures editingItem == None
    {
      editingItem := None;
    }

    /** The "Save Changes" click: with a draft open, send its six fields and await the answer; the draft stays open meanwhile. */
    method SendSaveEdit()
      modifies this`outbox, this`inFlight
      ensures editingItem.None? ==> outbox == old(outbox) && inFlight == old(inFlight)
      ensures editingItem.Some? ==>
        && outbox == old(outbox) + [Api.UpdateContent(editingItem.value.id, EditPatch(editingItem.value))]
        && inFlight == old(inFlight) + [SavingEdit(editingItem.value)]
    {
      if editingItem.None? {
        return;
      }
      var draft := editingItem.value;
      outbox := outbox + [Api.UpdateContent(draft.id, EditPatch(draft))];
      inFlight := inFlight + [SavingEdit(draft)];
    }

    /**
     * The update sent for the `k`-th write comes back, whatever it says: the
     * draft captured at the click replaces its record in the cache as it is
     * now, and the edit form closes.
     */
    method ResolveSaveEdit(k: nat, reply: Api.Reply<ContentItem>, now: string)
      requires k < |inFlight| && inFlight[k].SavingEdit?
      modifies this`websiteInfo, this`editingItem, this`inFlight
      ensures websiteInfo == SaveEditInCache(old(websiteInfo), old(inFlight)[k].edited, now)
      ensures editingItem == None
      ensures inFlight == Api.Resolved(old(inFlight), k)
      ensures Api.Filed(old(websiteInfo)) ==> Api.Filed(websiteInfo)
    {
      if Api.Filed(websiteInfo) {
        SaveEditKeepsFiled(websiteInfo, inFlight[k].edited, now);
      }
      var draft := inFlight[k].edited;
      var sectionItems := Api.Lookup(websiteInfo, draft.section);
      var itemIndex := FindIndexById(sectionItems, draft.id);
      if itemIndex != -1 {
        sectionItems := sectionItems[itemIndex := draft.(updatedAt := now)];
        websiteInfo := websiteInfo[draft.section := sectionItems];
      }
      editingItem := None;
      inFlight := Api.Resolved(inFlight, k);
    }

    /** `handleSaveEdit` when its answer comes back before anything else happens: send the update, then change the cache. */
    method HandleSaveEdit(reply: Api.Reply<ContentItem>, now: string)
      modifies this`websiteInfo, this`editingItem, this`outbox, this`inFlight
      ensures inFlight == old(inFlight)
      ensures old(editingItem).None? ==>
        websiteInfo == old(websiteInfo) && editingItem == None && outbox == old(outbox)
      ensures old(editingItem).Some? ==>
        var draft := old(editingItem).value;
        && websiteInfo == SaveEditInCache(old(websiteInfo), draft, now)
        && editingItem == None
        && outbox == old(outbox) + [Api.UpdateContent(draft.id, EditPatch(draft))]
    {
      SendSaveEdit();
      if editingItem.Some? {
        ResolveSaveEdit(|inFlight| - 1, reply, now);
      }
    }

    /** The toggle click: send `is_active: !item.is_active` and await the answer. */
    method SendToggleActive(item: ContentItem)
      modifies this`outbox, this`inFlight
      ensures outbox == old(outbox) + [Api.UpdateContent(item.id, TogglePatch(item))]
      ensures inFlight == old(inFlight) + [Toggling(item)]
    {
      outbox := outbox + [Api.UpdateContent(item.id, TogglePatch(item))];
      inFlight := inFlight + [Toggling(item)];
    }

    /** The toggle sent for the `k`-th write comes back, whatever it says: the cached record's flag is flipped. */
    method ResolveToggleActive(k: nat, reply: Api.Reply<ContentItem>, now: string)
      requires k < |inFlight| && inFlight[k].Toggling?
      modifies this`websiteInfo, this`inFlight
      ensures websiteInfo == ToggleActiveInCache(old(websiteInfo), old(inFlight)[k].item, now)
      ensures inFlight == Api.Resolved(old(inFlight), k)
      ensures Api.Filed(old(websiteInfo)) ==> Api.Filed(websiteInfo)
    {
      if Api.Filed(websiteInfo) {
        ToggleActiveKeepsFiled(websiteInfo, inFlight[k].item, now);
      }
      var item := inFlight[k].item;
      var sectionItems := Api.Lookup(websiteInfo, item.section);
      var itemIndex := FindIndexById(sectionItems, item.id);
      if itemIndex != -1 {
        var cached := sectionItems[itemIndex];
        sectionItems := sectionItems[itemIndex := cached.(isActive := !cached.isActive, updatedAt := now)];
        websiteInfo := websiteInfo[item.section := sectionItems];
      }
      inFlight := Api.Resolved(inFlight, k);
    }

    /** `handleToggleActive` when its answer comes back before anything else happens. */
    method HandleToggleActive(item: ContentItem, reply: Api.Reply<ContentItem>, now: string)
      modifies this`websiteInfo, this`outbox, this`inFlight
      ensures inFlight == old(inFlight)
      ensures websiteInfo == ToggleActiveInCache(old(websiteInfo), item, now)
      ensures outbox == old(outbox) + [Api.UpdateContent(item.id, TogglePatch(item))]
    {
      SendToggleActive(item);
      ResolveToggleActive(|inFlight| - 1, reply, now);
    }

    /** The delete click: nothing unless confirmed; then send the delete and await the answer. */
    method SendDelete(id: string, section: string, confirmed: bool)
      modifies this`outbox, this`inFlight
      ensures !confirmed ==> outbox == old(outbox) && inFlight == old(inFlight)
      ensures confirmed ==>
        outbox == old(outbox) + [Api.DeleteContent(id)] && inFlight == old(inFlight) + [Deleting(id, section)]
    {
      if !confirmed {
        return;
      }
      outbox := outbox + [Api.DeleteContent(id)];
      inFlight := inFlight + [Deleting(id, section)];
    }

    /** The delete sent for the `k`-th write comes back, whatever it says: the section is filtered. */
    method ResolveDelete(k: nat, reply: Api.Reply<()>)
      requires k < |inFlight| && inFlight[k].Deleting?
      modifies this`websiteInfo, this`inFlight
      ensures websiteInfo == DeleteFromCache(old(websiteInfo), old(inFlight)[k].id, old(inFlight)[k].section)
      ensures inFlight == Api.Resolved(old(inFlight), k)
      ensures Api.Filed(old(websiteInfo)) ==> Api.Filed(websiteInfo)
    {
      if Api.Filed(websiteInfo) {
        DeleteKeepsFiled(websiteInfo, inFlight[k].id, inFlight[k].section);
      }
      var id, section := inFlight[k].id, inFlight[k].section;
      var sectionItems := Api.Lookup(websiteInfo, section);
      websiteInfo := websiteInfo[section := WithoutId(sectionItems, id)];
      inFlight := Api.Resolved(inFlight, k);
    }

    /** `handleDelete` when its answer comes back before anything else happens. */
    method HandleDelete(id: string, section: string, confirmed: bool, reply: Api.Reply<()>)
      modifies this`websiteInfo, this`outbox, this`inFlight
      ensures inFlight == old(inFlight)
      ensures !confirmed ==> websiteInfo == old(websiteInfo) && outbox == old(outbox)
      ensures confirmed ==> websiteInfo == DeleteFromCache(old(websiteInfo), id, section)
      ensures confirmed ==> outbox == old(outbox) + [Api.DeleteContent(id)]
    {
      SendDelete(id, section, confirmed);
      if confirmed {
        ResolveDelete(|inFlight| - 1, reply);
      }
    }

    method HandleAddNew(section: string)
      modifies this`newItem
      ensures newItem == Some(NewDraft(websiteInfo, section))
    {
      newItem := Some(NewDraft(websiteInfo, section));
    }

    method HandleCancelNew()
      modifies this`newItem
      ensures newItem == None
    {
      newItem := None;
    }

    /**
     * The "Create Item" click: a missing draft or an empty title sends
     * nothing; otherwise the id and time for a synthesised record are drawn,
     * the create is sent and its answer awaited, and the draft stays open
     * meanwhile.
     */
    method SendSaveNew(newId: string, now: string)
      modifies this`outbox, this`inFlight
      ensures newItem.None? || newItem.value.title == "" ==> outbox == old(outbox) && inFlight == old(inFlight)
      ensures newItem.Some? && newItem.value.title != "" ==>
        && outbox == old(outbox) + [Api.CreateContent(newItem.value)]
        && inFlight == old(inFlight) + [Creating(newItem.value, newId, now)]
    {
      if newItem.None? || newItem.value.title == "" {
        return;
      }
      outbox := outbox + [Api.CreateContent(newItem.value)];
      inFlight := inFlight + [Creating(newItem.value, newId, now)];
    }

    /**
     * The create sent for the `k`-th write comes back: the store's record,
     * or the one synthesised from the draft captured at the click, joins the
     * end of its section as the cache is now, and the new-item form closes.
     */
    method ResolveSaveNew(k: nat, reply: Api.Reply<ContentItem>)
      requires k < |inFlight| && inFlight[k].Creating?
      modifies this`websiteInfo, this`newItem, this`inFlight
      ensures var p := old(inFlight)[k];
        websiteInfo == AppendToCache(old(websiteInfo), p.draft.section, CreatedOrLocal(p.draft, reply, p.newId, p.createdAt))
      ensures newItem == None
      ensures inFlight == Api.Resolved(old(inFlight), k)
      ensures var p := old(inFlight)[k];
        Api.Filed(old(websiteInfo)) && CreatedOrLocal(p.draft, reply, p.newId, p.createdAt).section == p.draft.section
        ==> Api.Filed(websiteInfo)
    {
      var draft, newId, now := inFlight[k].draft, inFlight[k].newId, inFlight[k].createdAt;
      if Api.Filed(websiteInfo) && CreatedOrLocal(draft, reply, newId, now).section == draft.section {
        AppendKeepsFiled(websiteInfo, draft.section, CreatedOrLocal(draft, reply, newId, now));
      }
      var createdItem := Api.CreateWebsiteInfo(draft, reply);
      if createdItem.None? {
        createdItem := Some(LocalRecord(draft, newId, now));
      }
      var sectionItems := Api.Lookup(websiteInfo, draft.section);
      sectionItems := sectionItems + [createdItem.value];
      websiteInfo := websiteInfo[draft.section := sectionItems];
      newItem := None;
      inFlight := Api.Resolved(inFlight, k);
    }

    /** `handleSaveNew` when its answer comes back before anything else happens. */
    method HandleSaveNew(reply: Api.Reply<ContentItem>, newId: string, now: string)
      modifies this`websiteInfo, this`newItem, this`outbox, this`inFlight
      ensures inFlight == old(inFlight)
      ensures old(newItem).None? || old(newItem).value.title == "" ==>
        websiteInfo == old(websiteInfo) && newItem == old(newItem) && outbox == old(outbox)
      ensures old(newItem).Some? && old(newItem).value.title != "" ==>
        var draft := old(newItem).value;
        && websiteInfo == AppendToCache(old(websiteInfo), draft.section, CreatedOrLocal(draft, reply, newId, now))
        && newItem == None
        && outbox == old(outbox) + [Api.CreateContent(draft)]
    {
      SendSaveNew(newId, now);
      if newItem.Some? && newItem.value.title != "" {
        ResolveSaveNew(|inFlight| - 1, reply);
      }
    }

    /** `handleInputChange`: the open edit draft takes the value, else the open new draft, else nothing. */
    method HandleInputChange(field: TextField, value: string)
      modifies this`editingItem, this`newItem
      ensures old(editingItem).Some? ==>
        editingItem == Some(WithText(old(editingItem).value, field, value)) && newItem == old(newItem)
      ensures old(editingItem).None? && old(newItem).Some? ==>
        editingItem == None && newItem == Some(DraftWithText(old(newItem).value, field, value))
      ensures old(editingItem).None? && old(newItem).None? ==> editingItem == None && newItem == None
    {
      if editingItem.Some? {
        editingItem := Some(WithText(editingItem.value, field, value));
      } else if newItem.Some? {
        newItem := Some(DraftWithText(newItem.value, field, value));
      }
    }

    /**
     * `handleMetadataChange`: `parsed` is what `JSON.parse` made of the
     * text, `None` when it threw; a failed parse changes nothing.
     */
    method HandleMetadataChange(parsed: Option<Json>)
      modifies this`editingItem, this`newItem
      ensures parsed.None? ==> editingItem == old(editingItem) && newItem == old(newItem)
      ensures parsed.Some? && old(editingItem).Some? ==>
        editingItem == Some(old(editingItem).value.(metadata := parsed.value)) && newItem == old(newItem)
      ensures parsed.Some? && old(editingItem).None? && old(newItem).Some? ==>
        editingItem == None && newItem == Some(old(newItem).value.(metadata := Some(parsed.value)))
      ensures old(editingItem).None? && old(newItem).None? ==> editingItem == None && newItem == None
    {
      if parsed.None? {
        return;
      }
      if editingItem.Some? {
        editingItem := Some(editingItem.value.(metadata := parsed.value));
      } else if newItem.Some? {
        newItem := Some(newItem.value.(metadata := Some(parsed.value)));
      }
    }

    /** The "Active" checkbox of the edit form, which is shown only while a record is being edited. */
    method SetEditingActive(checked: bool)
      requires editingItem.Some?
      modifies this`editingItem
      ensures editingItem == Some(old(editingItem).value.(isActive := checked))
    {
      editingItem := Some(editingItem.value.(isActive := checked));
    }

    /** The "Active" checkbox of the new-item form, which is shown only while a draft is open. */
    method SetNewActive(checked: bool)
      requires newItem.Some?
      modifies this`newItem
      ensures newItem == Some(old(newItem).value.(isActive := Some(checked)))
    {
      newItem := Some(newItem.value.(isActive := Some(checked)));
    }
  }

  /**
   * Two "Create Item" clicks before the first create comes back send two
   * creates; once both come back, the section has gained two records, in
   * the order the answers arrived.
   */
  method SaveNewClickedTwice(editor: Editor, id1: string, now1: string, id2: string, now2: string,
                             reply1: Api.Reply<ContentItem>, reply2: Api.Reply<ContentItem>)
    requires editor.newItem.Some? && editor.newItem.value.title != ""
    modifies editor`websiteInfo, editor`newItem, editor`outbox, editor`inFlight
    ensures var draft := old(editor.newItem).value;
      && editor.outbox == old(editor.outbox) + [Api.CreateContent(draft), Api.CreateContent(draft)]
      && editor.websiteInfo == AppendToCache(
           AppendToCache(old(editor.websiteInfo), draft.section, CreatedOrLocal(draft, reply1, id1, now1)),
           draft.section, CreatedOrLocal(draft, reply2, id2, now2))
      && |editor.websiteInfo[draft.section]| == |Api.Lookup(old(editor.websiteInfo), draft.section)| + 2
    ensures editor.newItem == None && editor.inFlight == old(editor.inFlight)
  {
    var n := |editor.inFlight|;
    editor.SendSaveNew(id1, now1);
    editor.SendSaveNew(id2, now2);
    editor.ResolveSaveNew(n, reply1);
    editor.ResolveSaveNew(n, reply2);
  }
}
