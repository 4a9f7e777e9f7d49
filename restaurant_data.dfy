/**
 * The restaurant dataset (`data/res-bot-dataset.json`) in the shape the two
 * loaders read it, and the pieces both of them derive from it.
 *
 * Each key the loaders look up becomes a field. A string field that may be
 * absent is an `Option`, a list that may be absent is the empty sequence, a
 * flag that is absent or falsy is `false`, and an absent nested object is the
 * object with every field absent. Prices are integer cents. The `hours`
 * object keeps its key order as a sequence of pairs; an object parsed from
 * JSON holds each day at most once, which `DistinctDays` states.
 */
module RestaurantData {
  import opened Wrappers
  import opened Text

  datatype Address = Address(street: Option<string>, city: Option<string>, state: Option<string>, zip: Option<string>)

  datatype Contact = Contact(phone: Option<string>, email: Option<string>, website: Option<string>)

  datatype Hours = Hours(open: Option<string>, close: Option<string>)

  datatype Restaurant = Restaurant(
    name: Option<string>, about: Option<string>, address: Address, contact: Contact,
    hours: seq<(string, Hours)>, cuisineTypes: seq<string>, features: seq<string>)

  datatype MenuItem = MenuItem(
    name: Option<string>, description: Option<string>, price: Option<nat>,
    vegetarian: bool, vegan: bool, glutenFree: bool,
    calories: Option<nat>, popular: bool, chefRecommended: bool)

  datatype Category = Category(name: Option<string>, description: Option<string>, items: seq<MenuItem>)

  /** No day is listed twice, as in a parsed JSON object. */
  predicate DistinctDays(hours: seq<(string, Hours)>) {
    forall i, j :: 0 <= i < j < |hours| ==> hours[i].0 != hours[j].0
  }

  /** `happy_hour`; `None` when the object is absent or empty. */
  datatype HappyHour = HappyHour(times: Option<string>, days: seq<string>, offers: seq<string>)

  datatype WeeklySpecial = WeeklySpecial(name: Option<string>, description: Option<string>, validDays: seq<string>)

  datatype Dataset = Dataset(
    restaurant: Restaurant, categories: seq<Category>,
    happyHour: Option<HappyHour>, weeklySpecials: seq<WeeklySpecial>)

  /** `"street, city, state zip"`, each part empty when absent. */
  function AddressText(a: Address): string {
    a.street.GetOr("") + ", " + a.city.GetOr("") + ", " + a.state.GetOr("") + " " + a.zip.GetOr("")
  }

  /** The order in which the dietary tags are listed. */
  const TagOrder: seq<string> := ["vegetarian", "vegan", "gluten-free"]

  /** The tags of the item's truthy flags. */
  function DietaryTags(item: MenuItem): seq<string> {
    (if item.vegetarian then ["vegetarian"] else []) +
    (if item.vegan then ["vegan"] else []) +
    (if item.glutenFree then ["gluten-free"] else [])
  }

  /** The position of a tag in `TagOrder`. */
  function TagRank(tag: string): nat {
    if tag == "vegetarian" then 0 else if tag == "vegan" then 1 else 2
  }

  /** A tag is listed exactly when its flag is set, each at most once, in
      the fixed order. */
  lemma DietaryTagsMeaning(item: MenuItem)
    ensures "vegetarian" in DietaryTags(item) <==> item.vegetarian
    ensures "vegan" in DietaryTags(item) <==> item.vegan
    ensures "gluten-free" in DietaryTags(item) <==> item.glutenFree
    ensures DietaryTags(item) == [] <==> !item.vegetarian && !item.vegan && !item.glutenFree
    ensures forall k :: 0 <= k < |DietaryTags(item)| ==> DietaryTags(item)[k] in TagOrder
    ensures forall i, j :: 0 <= i < j < |DietaryTags(item)| ==>
              TagRank(DietaryTags(item)[i]) < TagRank(DietaryTags(item)[j])
  {
    var v, g, f := item.vegetarian, item.vegan, item.glutenFree;
    var tags := DietaryTags(item);
    assert "vegetarian" != "vegan" && "vegetarian" != "gluten-free" && "vegan" != "gluten-free";
    assert TagRank("vegetarian") == 0 && TagRank("vegan") == 1 && TagRank("gluten-free") == 2;
    if v && g && f {
      assert tags == ["vegetarian", "vegan", "gluten-free"];
    } else if v && g {
      assert tags == ["vegetarian", "vegan"];
    } else if v && f {
      assert tags == ["vegetarian", "gluten-free"];
    } else if g && f {
      assert tags == ["vegan", "gluten-free"];
    }
  }

  /** The tag-collecting statements both loaders run for every item. */
  method CollectDietaryTags(item: MenuItem) returns (tags: seq<string>)
    ensures tags == DietaryTags(item)
  {
    tags := [];
    if item.vegetarian {
      tags := tags + ["vegetarian"];
    }
    if item.vegan {
      tags := tags + ["vegan"];
    }
    if item.glutenFree {
      tags := tags + ["gluten-free"];
    }
  }

  /** An item together with the category it is listed under. */
  type Listed = (Category, MenuItem)

  /** The items of one category, each with that category. */
  function Listing(c: Category, items: seq<MenuItem>): (ls: seq<Listed>)
    ensures |ls| == |items|
  {
    if items == [] then [] else Listing(c, items[..|items| - 1]) + [(c, items[|items| - 1])]
  }

  /** Every item of every category, in category order and then item order:
      the order of the loaders' nested loops. */
  function AllItems(cats: seq<Category>): (ls: seq<Listed>)
    ensures |ls| == TotalItems(cats)
  {
    if cats == [] then [] else AllItems(cats[..|cats| - 1]) + Listing(cats[|cats| - 1], cats[|cats| - 1].items)
  }

  /** The number of items over all categories. */
  function TotalItems(cats: seq<Category>): nat {
    if cats == [] then 0 else TotalItems(cats[..|cats| - 1]) + |cats[|cats| - 1].items|
  }

  lemma {:induction false} ListingAt(c: Category, items: seq<MenuItem>, j: nat)
    requires j < |items|
    ensures Listing(c, items)[j] == (c, items[j])
  {
    if j < |items| - 1 {
      ListingAt(c, items[..|items| - 1], j);
    }
  }

  lemma ListingStep(c: Category, items: seq<MenuItem>, j: nat)
    requires j < |items|
    ensures Listing(c, items[..j + 1]) == Listing(c, items[..j]) + [(c, items[j])]
  {
    assert items[..j + 1][..j] == items[..j];
  }

  lemma AllItemsStep(cats: seq<Category>, i: nat)
    requires i < |cats|
    ensures AllItems(cats[..i + 1]) == AllItems(cats[..i]) + Listing(cats[i], cats[i].items)
  {
    assert cats[..i + 1][..i] == cats[..i];
  }

  lemma {:induction false} ListingAppend(c: Category, a: seq<MenuItem>, b: seq<MenuItem>)
    ensures Listing(c, a + b) == Listing(c, a) + Listing(c, b)
    decreases |b|
  {
    if b == [] {
      assert a + b == a;
    } else {
      var init, last := b[..|b| - 1], b[|b| - 1];
      assert (a + b)[..|a + b| - 1] == a + init;
      assert (a + b)[|a + b| - 1] == last;
      ListingAppend(c, a, init);
      assert Listing(c, a + b) == Listing(c, a) + Listing(c, init) + [(c, last)];
      assert Listing(c, b) == Listing(c, init) + [(c, last)];
    }
  }

  lemma {:induction false} AllItemsAppend(a: seq<Category>, b: seq<Category>)
    ensures AllItems(a + b) == AllItems(a) + AllItems(b)
    decreases |b|
  {
    if b == [] {
      assert a + b == a;
    } else {
      var init, last := b[..|b| - 1], b[|b| - 1];
      assert (a + b)[..|a + b| - 1] == a + init;
      assert (a + b)[|a + b| - 1] == last;
      AllItemsAppend(a, init);
      var l := Listing(last, last.items);
      assert AllItems(a + b) == AllItems(a) + AllItems(init) + l;
      assert AllItems(b) == AllItems(init) + l;
    }
  }

  /** The `"open - close"` text of an hours entry as `init_db` writes it: an
      absent time is rendered as `None`. */
  function OrNone(s: Option<string>): string {
    if s.Some? then s.value else "None"
  }

  /** `f"{price:.2f}"` for a price in cents: whole units, a point, two digits. */
  function PriceText(cents: nat): (s: string)
    ensures |s| >= 4 && s[|s| - 3] == '.'
    ensures IsDigit(s[|s| - 2]) && IsDigit(s[|s| - 1])
  {
    NatToString(cents / 100) + "." + [DigitChar(cents % 100 / 10), DigitChar(cents % 10)]
  }

  /** Reading the text back gives the price. */
  lemma PriceTextRoundTrip(cents: nat)
    ensures var s := PriceText(cents);
            ParseNat(s[..|s| - 3]) * 100 + ParseNat(s[|s| - 2..]) == cents
  {
    var s := PriceText(cents);
    var whole := NatToString(cents / 100);
    assert s[..|s| - 3] == whole;
    ParseNatToString(cents / 100);
    var frac := s[|s| - 2..];
    assert frac == [DigitChar(cents % 100 / 10), DigitChar(cents % 10)];
    var tens, ones := DigitChar(cents % 100 / 10), DigitChar(cents % 10);
    assert tens as int - '0' as int == cents % 100 / 10;
    assert ones as int - '0' as int == cents % 10;
    assert frac[..1] == [tens];
    assert [tens][..0] == [];
    assert ParseNat([tens]) == cents % 100 / 10;
    assert ParseNat(frac) == 10 * (cents % 100 / 10) + cents % 10;
  }
}
