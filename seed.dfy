/**
 * The record-building part of `init_db` (`init_db.py`): one menu record per
 * menu item, and one restaurant record with an opening-hours map and a list
 * of special events. The database calls around them are not modelled.
 *
 * `init_db` reads `name`, `description` and `price` of an item by
 * subscripting, so an item without one of them raises `KeyError` and nothing
 * after it happens; that is `Err(key)` here.
 */
module Seed {
  import opened Wrappers
  import opened Text
  import opened Seqs
  import opened RestaurantData
  import Corpus

  /** A `MenuItem` model as `init_db` fills it in. */
  datatype MenuRecord = MenuRecord(
    name: string, description: string, priceCents: nat, category: string,
    dietaryTags: seq<string>, isAvailable: bool)

  /** One entry of `special_events`; `times` is `None` where the entry has
      no `times` key. */
  datatype EventRecord = EventRecord(name: string, description: string, times: Option<string>, days: seq<string>)

  /** A `RestaurantInfo` model as `init_db` fills it in. */
  datatype RestaurantRecord = RestaurantRecord(
    name: string, description: string, address: string, phone: string, email: string,
    openingHours: map<string, string>, specialEvents: seq<EventRecord>)

  datatype Records = Records(menu: seq<MenuRecord>, restaurant: RestaurantRecord)

  // ---------------------------------------------------------------------
  // Menu records
  // ---------------------------------------------------------------------

  /** Lines 32-47 for one item: the record, or the first of the subscripted
      keys that is missing. */
  function MenuRecordOf(l: Listed): Result<MenuRecord, string> {
    var c, item := l.0, l.1;
    if item.name.None? then Err("name")
    else if item.description.None? then Err("description")
    else if item.price.None? then Err("price")
    else Ok(MenuRecord(item.name.value, item.description.value, item.price.value,
                       c.name.GetOr(""), DietaryTags(item), true))
  }

  /** An item gets a record exactly when it has a name, a description and a
      price; the record carries them, the category name and the item's
      tags, and is available. Otherwise the error names the first missing
      key in the order the record's arguments are evaluated. */
  lemma MenuRecordMeaning(l: Listed)
    ensures MenuRecordOf(l).Ok? <==> l.1.name.Some? && l.1.description.Some? && l.1.price.Some?
    ensures MenuRecordOf(l).Ok? ==>
              var m := MenuRecordOf(l).value;
              Some(m.name) == l.1.name && Some(m.description) == l.1.description &&
              Some(m.priceCents) == l.1.price && m.category == l.0.name.GetOr("") &&
              m.dietaryTags == DietaryTags(l.1) && m.isAvailable
    ensures MenuRecordOf(l) == Err("name") <==> l.1.name.None?
    ensures MenuRecordOf(l) == Err("description") <==> l.1.name.Some? && l.1.description.None?
    ensures MenuRecordOf(l) == Err("price") <==> l.1.name.Some? && l.1.description.Some? && l.1.price.None?
  {
  }

  /** Lines 27-48: the records of the listed items in order, or the error of
      the first item without one. */
  function MenuRecords(ls: seq<Listed>): Result<seq<MenuRecord>, string> {
    if ls == [] then Ok([])
    else
      match MenuRecords(ls[..|ls| - 1])
      case Err(e) => Err(e)
      case Ok(rs) =>
        match MenuRecordOf(ls[|ls| - 1])
        case Err(e) => Err(e)
        case Ok(m) => Ok(rs + [m])
  }

  lemma MenuRecordsStep(ls: seq<Listed>, l: Listed)
    ensures MenuRecords(ls + [l]) ==
              match MenuRecords(ls)
              case Err(e) => Err(e)
              case Ok(rs) =>
                match MenuRecordOf(l)
                case Err(e) => Err(e)
                case Ok(m) => Ok(rs + [m])
  {
    assert (ls + [l])[..|ls|] == ls;
  }

  /** Once an item has failed, whatever follows it does not matter. */
  lemma {:induction false} MenuRecordsErrStays(a: seq<Listed>, b: seq<Listed>)
    requires MenuRecords(a).Err?
    ensures MenuRecords(a + b) == MenuRecords(a)
    decreases |b|
  {
    if b == [] {
      assert a + b == a;
    } else {
      var init := b[..|b| - 1];
      assert (a + b)[..|a + b| - 1] == a + init;
      MenuRecordsErrStays(a, init);
    }
  }

  /** The records succeed exactly when every item has its three keys; then
      there is one record per item, in order. */
  lemma {:induction false} MenuRecordsOk(ls: seq<Listed>)
    ensures MenuRecords(ls).Ok? <==> forall k :: 0 <= k < |ls| ==> MenuRecordOf(ls[k]).Ok?
    ensures MenuRecords(ls).Ok? ==>
              |MenuRecords(ls).value| == |ls| &&
              forall k :: 0 <= k < |ls| ==> MenuRecords(ls).value[k] == MenuRecordOf(ls[k]).value
  {
    if ls != [] {
      var init := ls[..|ls| - 1];
      MenuRecordsOk(init);
      assert forall k :: 0 <= k < |init| ==> init[k] == ls[k];
    }
  }

  /** A failure is the failure of the first item without a record. */
  lemma {:induction false} MenuRecordsFirstError(ls: seq<Listed>)
    requires MenuRecords(ls).Err?
    ensures exists k :: 0 <= k < |ls| && MenuRecordOf(ls[k]) == Err(MenuRecords(ls).error) &&
              forall j :: 0 <= j < k ==> MenuRecordOf(ls[j]).Ok?
  {
    var init := ls[..|ls| - 1];
    if MenuRecords(init).Err? {
      MenuRecordsFirstError(init);
      var k :| 0 <= k < |init| && MenuRecordOf(init[k]) == Err(MenuRecords(init).error) &&
                forall j :: 0 <= j < k ==> MenuRecordOf(init[j]).Ok?;
      assert ls[k] == init[k];
      assert forall j :: 0 <= j < k ==> ls[j] == init[j];
    } else {
      MenuRecordsOk(init);
      assert forall j :: 0 <= j < |init| ==> ls[j] == init[j];
      assert MenuRecordOf(ls[|ls| - 1]) == Err(MenuRecords(ls).error);
    }
  }

  /** The failure of the item `j` of category `c` is the failure of all
      items. */
  lemma ErrStopsMenu(cats: seq<Category>, c: nat, j: nat)
    requires c < |cats| && j < |cats[c].items|
    requires MenuRecords(AllItems(cats[..c]) + Listing(cats[c], cats[c].items[..j + 1])).Err?
    ensures MenuRecords(AllItems(cats)) ==
              MenuRecords(AllItems(cats[..c]) + Listing(cats[c], cats[c].items[..j + 1]))
  {
    var items := cats[c].items;
    var done, rest := AllItems(cats[..c]), Listing(cats[c], items[..j + 1]);
    var later := Listing(cats[c], items[j + 1..]);
    MenuRecordsErrStays(done + rest, later);
    assert items == items[..j + 1] + items[j + 1..];
    ListingAppend(cats[c], items[..j + 1], items[j + 1..]);
    AppendAssoc(done, rest, later);
    AllItemsStep(cats, c);
    assert cats == cats[..c + 1] + cats[c + 1..];
    AllItemsAppend(cats[..c + 1], cats[c + 1..]);
    MenuRecordsErrStays(AllItems(cats[..c + 1]), AllItems(cats[c + 1..]));
  }

  /** Lines 27-48, the nested loop over categories and items. */
  method BuildMenuRecords(cats: seq<Category>) returns (r: Result<seq<MenuRecord>, string>)
    ensures r == MenuRecords(AllItems(cats))
  {
    var records: seq<MenuRecord> := [];
    var c := 0;
    assert cats[..0] == [];
    while c < |cats|
      invariant 0 <= c <= |cats|
      invariant MenuRecords(AllItems(cats[..c])) == Ok(records)
    {
      var category := cats[c];
      var categoryName := category.name.GetOr("");
      var j := 0;
      assert category.items[..0] == [];
      assert AllItems(cats[..c]) + Listing(category, category.items[..0]) == AllItems(cats[..c]);
      while j < |category.items|
        invariant 0 <= j <= |category.items|
        invariant MenuRecords(AllItems(cats[..c]) + Listing(category, category.items[..j])) == Ok(records)
      {
        var item := category.items[j];
        var tags := CollectDietaryTags(item);
        ghost var before := AllItems(cats[..c]) + Listing(category, category.items[..j]);
        ListingStep(category, category.items, j);
        assert before + [(category, item)] == AllItems(cats[..c]) + Listing(category, category.items[..j + 1]);
        MenuRecordsStep(before, (category, item));
        if item.name.None? {
          ErrStopsMenu(cats, c, j);
          return Err("name");
        }
        if item.description.None? {
          ErrStopsMenu(cats, c, j);
          return Err("description");
        }
        if item.price.None? {
          ErrStopsMenu(cats, c, j);
          return Err("price");
        }
        var record := MenuRecord(item.name.value, item.description.value, item.price.value,
                                 categoryName, tags, true);
        records := records + [record];
        j := j + 1;
      }
      assert category.items[..j] == category.items;
      AllItemsStep(cats, c);
      c := c + 1;
    }
    assert cats[..c] == cats;
    r := Ok(records);
  }

  // ---------------------------------------------------------------------
  // Opening hours
  // ---------------------------------------------------------------------

  /** Line 58: `f"{open} - {close}"`, where an absent time prints `None`. */
  function HoursText(h: Hours): string {
    OrNone(h.open) + " - " + OrNone(h.close)
  }

  /** Lines 56-58: each day assigned its text, a later entry for the same day
      replacing an earlier one. */
  function HoursMap(hours: seq<(string, Hours)>): map<string, string> {
    if hours == [] then map[]
    else HoursMap(hours[..|hours| - 1])[hours[|hours| - 1].0 := HoursText(hours[|hours| - 1].1)]
  }

  /** The map has a key for exactly the days listed. */
  lemma {:induction false} HoursMapKeys(hours: seq<(string, Hours)>)
    ensures HoursMap(hours).Keys == set k | 0 <= k < |hours| :: hours[k].0
  {
    if hours != [] {
      var init := hours[..|hours| - 1];
      HoursMapKeys(init);
      assert forall k :: 0 <= k < |init| ==> init[k] == hours[k];
      assert (set k | 0 <= k < |hours| :: hours[k].0) ==
             (set k | 0 <= k < |init| :: init[k].0) + {hours[|hours| - 1].0};
    }
  }

  /** Each day maps to the text of its last entry. */
  lemma {:induction false} HoursMapAt(hours: seq<(string, Hours)>, k: nat)
    requires k < |hours|
    requires forall j :: k < j < |hours| ==> hours[j].0 != hours[k].0
    ensures hours[k].0 in HoursMap(hours)
    ensures HoursMap(hours)[hours[k].0] == HoursText(hours[k].1)
  {
    if k < |hours| - 1 {
      var init := hours[..|hours| - 1];
      assert init[k] == hours[k];
      HoursMapAt(init, k);
    }
  }

  /** With each day listed once, as in a parsed JSON object, every entry
      survives in the map with its own text. */
  lemma HoursMapDistinct(hours: seq<(string, Hours)>, k: nat)
    requires DistinctDays(hours) && k < |hours|
    ensures hours[k].0 in HoursMap(hours)
    ensures HoursMap(hours)[hours[k].0] == HoursText(hours[k].1)
  {
    HoursMapAt(hours, k);
  }

  /** Lines 56-58. */
  method OpeningHours(hours: seq<(string, Hours)>) returns (m: map<string, string>)
    ensures m == HoursMap(hours)
  {
    m := map[];
    var i := 0;
    while i < |hours|
      invariant 0 <= i <= |hours|
      invariant m == HoursMap(hours[..i])
    {
      var day, time := hours[i].0, hours[i].1;
      assert hours[..i + 1][..i] == hours[..i];
      m := m[day := OrNone(time.open) + " - " + OrNone(time.close)];
      i := i + 1;
    }
    assert hours[..i] == hours;
  }

  /** Where both times are given, the stored text is what follows the day in
      the corpus's hours line. */
  lemma HoursAgreeWithCorpus(entry: (string, Hours))
    requires entry.1.open.Some? && entry.1.close.Some?
    ensures Corpus.HourLine(entry) == entry.0 + ": " + HoursText(entry.1)
  {
  }

  // ---------------------------------------------------------------------
  // Special events
  // ---------------------------------------------------------------------

  /** Lines 66-71. */
  function HappyRecord(h: HappyHour): EventRecord {
    EventRecord("Happy Hour", Join(h.offers, ", "), Some(h.times.GetOr("")), h.days)
  }

  /** Lines 76-80: no `times` key. */
  function WeeklyRecord(w: WeeklySpecial): EventRecord {
    EventRecord(w.name.GetOr(""), w.description.GetOr(""), None, w.validDays)
  }

  /** Lines 61-80: the happy hour (when present) first, then the weekly
      specials in order. */
  function SpecialEvents(hh: Option<HappyHour>, ws: seq<WeeklySpecial>): seq<EventRecord> {
    (if hh.Some? then [HappyRecord(hh.value)] else []) + Map(WeeklyRecord, ws)
  }

  /** The happy hour comes first, with its offers joined and a `times` key;
      every other entry is a weekly special, in order, with its valid days
      and no `times` key. */
  lemma SpecialEventsShape(hh: Option<HappyHour>, ws: seq<WeeklySpecial>, k: nat)
    requires k < |SpecialEvents(hh, ws)|
    ensures |SpecialEvents(hh, ws)| == (if hh.Some? then 1 else 0) + |ws|
    ensures hh.Some? && k == 0 ==>
              SpecialEvents(hh, ws)[k].name == "Happy Hour" &&
              SpecialEvents(hh, ws)[k].description == Join(hh.value.offers, ", ") &&
              SpecialEvents(hh, ws)[k].times == Some(hh.value.times.GetOr("")) &&
              SpecialEvents(hh, ws)[k].days == hh.value.days
    ensures var w := if hh.Some? then k - 1 else k;
            0 <= w ==>
              SpecialEvents(hh, ws)[k].times.None? &&
              SpecialEvents(hh, ws)[k].name == ws[w].name.GetOr("") &&
              SpecialEvents(hh, ws)[k].description == ws[w].description.GetOr("") &&
              SpecialEvents(hh, ws)[k].days == ws[w].validDays
  {
    var h := if hh.Some? then 1 else 0;
    if k >= h {
      MapAt(WeeklyRecord, ws, k - h);
    }
  }

  /** Lines 61-80. */
  method BuildSpecialEvents(hh: Option<HappyHour>, ws: seq<WeeklySpecial>) returns (events: seq<EventRecord>)
    ensures events == SpecialEvents(hh, ws)
  {
    events := [];
    if hh.Some? {
      var h := hh.value;
      events := events + [EventRecord("Happy Hour", Join(h.offers, ", "), Some(h.times.GetOr("")), h.days)];
    }
    ghost var head := events;
    var i := 0;
    while i < |ws|
      invariant 0 <= i <= |ws|
      invariant events == MapFrom(head, WeeklyRecord, ws[..i])
    {
      var special := ws[i];
      MapFromSnoc(head, WeeklyRecord, ws[..i], special);
      assert ws[..i + 1] == ws[..i] + [special];
      events := events + [EventRecord(special.name.GetOr(""), special.description.GetOr(""), None, special.validDays)];
      i := i + 1;
    }
    assert ws[..i] == ws;
    MapFromIsAppend(head, WeeklyRecord, ws);
  }

  // ---------------------------------------------------------------------
  // The restaurant record and the whole run
  // ---------------------------------------------------------------------

  /** Lines 83-91. */
  function RestaurantRecordOf(data: Dataset): RestaurantRecord {
    var r := data.restaurant;
    RestaurantRecord(r.name.GetOr(""), r.about.GetOr(""), AddressText(r.address),
      r.contact.phone.GetOr(""), r.contact.email.GetOr(""),
      HoursMap(r.hours), SpecialEvents(data.happyHour, data.weeklySpecials))
  }

  /** The stored address is the text after `Address: ` in the corpus's
      restaurant document. */
  lemma AddressAgreesWithCorpus(data: Dataset)
    ensures Corpus.InfoLines(data.restaurant)[2] == "Address: " + RestaurantRecordOf(data).address
  {
    Corpus.InfoLinesShape(data.restaurant);
  }

  /** The records `init_db` builds: the menu records, then the restaurant
      record, or the error that stops it at the menu. */
  function SeedRecords(data: Dataset): Result<Records, string> {
    match MenuRecords(AllItems(data.categories))
    case Err(e) => Err(e)
    case Ok(menu) => Ok(Records(menu, RestaurantRecordOf(data)))
  }

  /** One menu record per listed item, from that item and in the same order
      as the corpus's menu documents, when no item lacks a key. */
  lemma SeedMenu(data: Dataset, k: nat)
    requires SeedRecords(data).Ok?
    requires k < TotalItems(data.categories)
    ensures |SeedRecords(data).value.menu| == TotalItems(data.categories)
    ensures MenuRecordOf(AllItems(data.categories)[k]).Ok? &&
            SeedRecords(data).value.menu[k] == MenuRecordOf(AllItems(data.categories)[k]).value
  {
    MenuRecordsOk(AllItems(data.categories));
  }

  /** `init_db` stops exactly when some listed item lacks a key, with the
      error of the first such item. */
  lemma SeedFails(data: Dataset)
    ensures SeedRecords(data).Err? <==>
              exists k :: 0 <= k < TotalItems(data.categories) && MenuRecordOf(AllItems(data.categories)[k]).Err?
    ensures SeedRecords(data).Err? ==>
              exists k :: 0 <= k < TotalItems(data.categories) &&
                MenuRecordOf(AllItems(data.categories)[k]) == Err(SeedRecords(data).error) &&
                forall j :: 0 <= j < k ==> MenuRecordOf(AllItems(data.categories)[j]).Ok?
  {
    var items := AllItems(data.categories);
    MenuRecordsOk(items);
    if MenuRecords(items).Err? {
      MenuRecordsFirstError(items);
      var k :| 0 <= k < |items| && MenuRecordOf(items[k]) == Err(MenuRecords(items).error) &&
                forall j :: 0 <= j < k ==> MenuRecordOf(items[j]).Ok?;
      assert SeedRecords(data).error == MenuRecords(items).error;
      assert k < TotalItems(data.categories) && MenuRecordOf(AllItems(data.categories)[k]).Err?;
      assert SeedRecords(data).Err?;
      assert exists k :: 0 <= k < TotalItems(data.categories) && MenuRecordOf(AllItems(data.categories)[k]).Err?;
    } else {
      assert SeedRecords(data).Ok?;
    }
  }

  /** Lines 27-91, without the database calls. */
  method InitDb(data: Dataset) returns (r: Result<Records, string>)
    ensures r == SeedRecords(data)
  {
    var menu := BuildMenuRecords(data.categories);
    if menu.Err? {
      return Err(menu.error);
    }
    var restaurant := data.restaurant;
    var hours := OpeningHours(restaurant.hours);
    var events := BuildSpecialEvents(data.happyHour, data.weeklySpecials);
    var info := RestaurantRecord(restaurant.name.GetOr(""), restaurant.about.GetOr(""),
      restaurant.address.street.GetOr("") + ", " + restaurant.address.city.GetOr("") + ", " +
      restaurant.address.state.GetOr("") + " " + restaurant.address.zip.GetOr(""),
      restaurant.contact.phone.GetOr(""), restaurant.contact.email.GetOr(""), hours, events);
    r := Ok(Records(menu.value, info));
  }
}
