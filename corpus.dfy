/**
 * `create_documents_from_data` of `create_vector_store.py`: the documents the
 * vector store is built from, one text per restaurant record, menu item,
 * happy hour and weekly special.
 *
 * Every text is a list of lines, each ended by a newline; the spec functions
 * give those lines, and the methods build the text with `+=` as the source
 * does.
 */
module Corpus {
  import opened Wrappers
  import opened Text
  import opened RestaurantData
  import opened Seqs

  /** The `type` metadata entry. */
  datatype DocType = RestaurantInfo | MenuItemDoc | SpecialEvent

  function TypeName(t: DocType): string {
    match t
    case RestaurantInfo => "restaurant_info"
    case MenuItemDoc => "menu_item"
    case SpecialEvent => "special_event"
  }

  datatype Document = Document(pageContent: string, docType: DocType)

  /** One line of text: the line and its newline. */
  function Line(s: string): string {
    s + "\n"
  }

  /** The text of a list of lines: each line followed by a newline. */
  function Lines(ls: seq<string>): string {
    if ls == [] then "" else Lines(ls[..|ls| - 1]) + Line(ls[|ls| - 1])
  }

  lemma LinesSnoc(ls: seq<string>, l: string)
    ensures Lines(ls + [l]) == Lines(ls) + Line(l)
  {
    assert (ls + [l])[..|ls|] == ls;
  }

  lemma {:induction false} LinesAppend(a: seq<string>, b: seq<string>)
    ensures Lines(a + b) == Lines(a) + Lines(b)
    decreases |b|
  {
    if b != [] {
      var init := b[..|b| - 1];
      assert (a + b)[..|a + b| - 1] == a + init;
      assert (a + b)[|a + b| - 1] == b[|b| - 1];
      LinesAppend(a, init);
    } else {
      assert a + b == a;
    }
  }

  lemma LinesCons(l: string, ls: seq<string>)
    ensures Lines([l] + ls) == Line(l) + Lines(ls)
  {
    LinesAppend([l], ls);
    LinesSnoc([], l);
  }

  /** Splitting the text at newlines gives the lines back, followed by the
      empty text after the last newline, when no line holds a newline. */
  lemma {:induction false} LinesSplit(ls: seq<string>)
    requires forall k :: 0 <= k < |ls| ==> '\n' !in ls[k]
    ensures Split(Lines(ls), '\n') == ls + [""]
    decreases |ls|
  {
    if ls != [] {
      LinesCons(ls[0], ls[1..]);
      assert [ls[0]] + ls[1..] == ls;
      LinesSplit(ls[1..]);
      SplitAtFirst(ls[0], '\n', Lines(ls[1..]));
    }
  }

  /** Appending pieces one by one is appending their concatenation. */
  lemma Regroup(p: string, a: string, b: string, c: string, d: string, e: string, f: string)
    ensures p + a + b + c + d + e + f == p + (a + b + c + d + e + f)
  {
  }

  /** A line beginning with `prefix` is among `ls`. */
  predicate HasLine(ls: seq<string>, prefix: string) {
    exists k :: 0 <= k < |ls| && StartsWith(ls[k], prefix)
  }

  lemma HasLineConcat(a: seq<string>, b: seq<string>, prefix: string)
    ensures HasLine(a + b, prefix) <==> HasLine(a, prefix) || HasLine(b, prefix)
  {
    if HasLine(a + b, prefix) {
      var k :| 0 <= k < |a + b| && StartsWith((a + b)[k], prefix);
      if k >= |a| {
        assert b[k - |a|] == (a + b)[k];
      }
    }
    if HasLine(a, prefix) {
      var k :| 0 <= k < |a| && StartsWith(a[k], prefix);
      assert (a + b)[k] == a[k];
    }
    if HasLine(b, prefix) {
      var k :| 0 <= k < |b| && StartsWith(b[k], prefix);
      assert (a + b)[|a| + k] == b[k];
    }
  }

  /** A text that differs from `prefix` at position `i` does not begin with it,
      whatever follows. */
  lemma DiffersAt(a: string, b: string, prefix: string, i: nat)
    requires i < |a| && i < |prefix| && a[i] != prefix[i]
    ensures !StartsWith(a + b, prefix)
  {
  }

  // ---------------------------------------------------------------------
  // The restaurant record
  // ---------------------------------------------------------------------

  function HourLine(entry: (string, Hours)): string {
    entry.0 + ": " + entry.1.open.GetOr("") + " - " + entry.1.close.GetOr("")
  }

  /** One line per `hours` entry, in key order. */
  function HourLines(hours: seq<(string, Hours)>): (ls: seq<string>)
    ensures |ls| == |hours|
  {
    if hours == [] then [] else HourLines(hours[..|hours| - 1]) + [HourLine(hours[|hours| - 1])]
  }

  lemma {:induction false} HourLinesAt(hours: seq<(string, Hours)>, k: nat)
    requires k < |hours|
    ensures HourLines(hours)[k] == HourLine(hours[k])
  {
    if k < |hours| - 1 {
      HourLinesAt(hours[..|hours| - 1], k);
    }
  }

  /** The seven lines before the hours. */
  function InfoHead(r: Restaurant): seq<string> {
    [ "Restaurant Name: " + r.name.GetOr(""),
      "About: " + r.about.GetOr(""),
      "Address: " + AddressText(r.address),
      "Phone: " + r.contact.phone.GetOr(""),
      "Email: " + r.contact.email.GetOr(""),
      "Website: " + r.contact.website.GetOr(""),
      "Opening Hours:" ]
  }

  function InfoTail(r: Restaurant): seq<string> {
    [ "Cuisine Types: " + Join(r.cuisineTypes, ", "),
      "Features: " + Join(r.features, ", ") ]
  }

  function InfoLines(r: Restaurant): seq<string> {
    InfoHead(r) + HourLines(r.hours) + InfoTail(r)
  }

  /** Seven fixed lines, the hours in key order, then the cuisine types and
      the features. */
  lemma InfoLinesShape(r: Restaurant)
    ensures |InfoLines(r)| == 9 + |r.hours|
    ensures InfoLines(r)[2] == "Address: " + AddressText(r.address)
    ensures InfoLines(r)[6] == "Opening Hours:"
    ensures forall k :: 0 <= k < |r.hours| ==> InfoLines(r)[7 + k] == HourLine(r.hours[k])
    ensures InfoLines(r)[7 + |r.hours|] == "Cuisine Types: " + Join(r.cuisineTypes, ", ")
  {
    forall k | 0 <= k < |r.hours|
      ensures InfoLines(r)[7 + k] == HourLine(r.hours[k])
    {
      HourLinesAt(r.hours, k);
    }
  }

  /** `acc` followed by the hours lines, as the loop appends them. */
  function HoursFrom(acc: string, hours: seq<(string, Hours)>): string {
    if hours == [] then acc else HoursFrom(acc, hours[..|hours| - 1]) + Line(HourLine(hours[|hours| - 1]))
  }

  lemma {:induction false} HoursFromLines(acc: string, hours: seq<(string, Hours)>)
    ensures HoursFrom(acc, hours) == acc + Lines(HourLines(hours))
  {
    if hours != [] {
      var init, last := hours[..|hours| - 1], hours[|hours| - 1];
      HoursFromLines(acc, init);
      LinesSnoc(HourLines(init), HourLine(last));
    }
  }

  lemma LinesPrefix(h: seq<string>, k: nat)
    requires k < |h|
    ensures Lines(h[..k + 1]) == Lines(h[..k]) + Line(h[k])
  {
    assert h[..k + 1][..k] == h[..k];
  }

  // The text of a few lines, written out; each adds one line to the last.

  lemma LinesOfTwo(a: string, b: string)
    ensures Lines([a, b]) == Line(a) + Line(b)
  {
    LinesSnoc([], a);
    LinesSnoc([a], b);
    assert [] + [a] == [a];
    assert [a] + [b] == [a, b];
  }

  lemma LinesOfThree(a: string, b: string, c: string)
    ensures Lines([a, b, c]) == Line(a) + Line(b) + Line(c)
  {
    LinesOfTwo(a, b);
    LinesSnoc([a, b], c);
    assert [a, b] + [c] == [a, b, c];
  }

  lemma LinesOfFour(a: string, b: string, c: string, d: string)
    ensures Lines([a, b, c, d]) == Line(a) + Line(b) + Line(c) + Line(d)
  {
    LinesOfThree(a, b, c);
    LinesSnoc([a, b, c], d);
    assert [a, b, c] + [d] == [a, b, c, d];
  }

  lemma LinesOfFive(a: string, b: string, c: string, d: string, e: string)
    ensures Lines([a, b, c, d, e]) == Line(a) + Line(b) + Line(c) + Line(d) + Line(e)
  {
    LinesOfFour(a, b, c, d);
    LinesSnoc([a, b, c, d], e);
    assert [a, b, c, d] + [e] == [a, b, c, d, e];
  }

  lemma LinesOfSix(a: string, b: string, c: string, d: string, e: string, f: string)
    ensures Lines([a, b, c, d, e, f]) == Line(a) + Line(b) + Line(c) + Line(d) + Line(e) + Line(f)
  {
    LinesOfFive(a, b, c, d, e);
    LinesSnoc([a, b, c, d, e], f);
    assert [a, b, c, d, e] + [f] == [a, b, c, d, e, f];
  }

  lemma LinesOfSeven(a: string, b: string, c: string, d: string, e: string, f: string, g: string)
    ensures Lines([a, b, c, d, e, f, g]) == Line(a) + Line(b) + Line(c) + Line(d) + Line(e) + Line(f) + Line(g)
  {
    LinesOfSix(a, b, c, d, e, f);
    LinesSnoc([a, b, c, d, e, f], g);
    assert [a, b, c, d, e, f] + [g] == [a, b, c, d, e, f, g];
  }

  /** Two lists of lines and then two more lines. */
  lemma LinesThenTwo(a: seq<string>, b: seq<string>, x: string, y: string)
    ensures Lines(a + b + [x, y]) == Lines(a) + Lines(b) + Line(x) + Line(y)
  {
    LinesAppend(a + b, [x, y]);
    LinesAppend(a, b);
    LinesOfTwo(x, y);
  }

  lemma InfoTextLines(r: Restaurant, head: string)
    requires head == Lines(InfoHead(r))
    ensures HoursFrom(head, r.hours) + Line(InfoTail(r)[0]) + Line(InfoTail(r)[1]) == Lines(InfoLines(r))
  {
    HoursFromLines(head, r.hours);
    LinesThenTwo(InfoHead(r), HourLines(r.hours), InfoTail(r)[0], InfoTail(r)[1]);
  }

  /** The address pieces appended one by one make the address line. */
  lemma AddressPieces(content: string, a: Address)
    ensures content + ("Address: " + a.street.GetOr("") + ", ") + (a.city.GetOr("") + ", ") +
              (a.state.GetOr("") + " ") + (a.zip.GetOr("") + "\n") == content + Line("Address: " + AddressText(a))
  {
  }

  /** The restaurant text, built as in lines 20-33. */
  method InfoContent(r: Restaurant) returns (content: string)
    ensures content == Lines(InfoLines(r))
  {
    content := "Restaurant Name: " + r.name.GetOr("") + "\n";
    content := content + ("About: " + r.about.GetOr("") + "\n");
    AddressPieces(content, r.address);
    content := content + ("Address: " + r.address.street.GetOr("") + ", ");
    content := content + (r.address.city.GetOr("") + ", ");
    content := content + (r.address.state.GetOr("") + " ");
    content := content + (r.address.zip.GetOr("") + "\n");
    content := content + ("Phone: " + r.contact.phone.GetOr("") + "\n");
    content := content + ("Email: " + r.contact.email.GetOr("") + "\n");
    content := content + ("Website: " + r.contact.website.GetOr("") + "\n");
    content := content + "Opening Hours:\n";
    LinesOfSeven("Restaurant Name: " + r.name.GetOr(""), "About: " + r.about.GetOr(""),
      "Address: " + AddressText(r.address), "Phone: " + r.contact.phone.GetOr(""),
      "Email: " + r.contact.email.GetOr(""), "Website: " + r.contact.website.GetOr(""), "Opening Hours:");
    ghost var head := content;
    var i := 0;
    while i < |r.hours|
      invariant 0 <= i <= |r.hours|
      invariant content == HoursFrom(head, r.hours[..i])
    {
      var day, hours := r.hours[i].0, r.hours[i].1;
      assert r.hours[..i + 1][..i] == r.hours[..i];
      content := content + (day + ": " + hours.open.GetOr("") + " - " + hours.close.GetOr("") + "\n");
      i := i + 1;
    }
    assert r.hours[..i] == r.hours;
    content := content + ("Cuisine Types: " + Join(r.cuisineTypes, ", ") + "\n");
    content := content + ("Features: " + Join(r.features, ", ") + "\n");
    InfoTextLines(r, head);
  }

  // ---------------------------------------------------------------------
  // Menu items
  // ---------------------------------------------------------------------

  function DietaryLine(item: MenuItem): seq<string> {
    if DietaryTags(item) != [] then ["Dietary Tags: " + Join(DietaryTags(item), ", ")] else []
  }

  function CaloriesLine(item: MenuItem): seq<string> {
    if item.calories.Some? && item.calories.value != 0 then ["Calories: " + NatToString(item.calories.value)] else []
  }

  function PopularLine(item: MenuItem): seq<string> {
    if item.popular then ["Popular Item: Yes"] else []
  }

  function ChefLine(item: MenuItem): seq<string> {
    if item.chefRecommended then ["Chef's Recommendation: Yes"] else []
  }

  /** The five fixed lines of an item. */
  function ItemBase(c: Category, item: MenuItem): seq<string> {
    [ "Menu Item: " + item.name.GetOr(""),
      "Category: " + c.name.GetOr(""),
      "Category Description: " + c.description.GetOr(""),
      "Description: " + item.description.GetOr(""),
      "Price: $" + PriceText(item.price.GetOr(0)) ]
  }

  function ItemLines(c: Category, item: MenuItem): seq<string> {
    ItemBase(c, item) + DietaryLine(item) + CaloriesLine(item) + PopularLine(item) + ChefLine(item)
  }

  lemma PrefixStarts(p: string, x: string)
    ensures StartsWith(p + x, p)
  {
    assert (p + x)[..|p|] == p;
  }

  lemma OptionalLine(present: bool, l: string, prefix: string)
    ensures HasLine(if present then [l] else [], prefix) <==> present && StartsWith(l, prefix)
  {
    if present {
      assert [l][0] == l;
    }
  }

  // None of the five fixed lines begins like one of the conditional ones.

  lemma BaseHasNoDietary(c: Category, item: MenuItem)
    ensures !HasLine(ItemBase(c, item), "Dietary Tags: ")
  {
    DiffersAt("Menu Item: ", item.name.GetOr(""), "Dietary Tags: ", 0);
    DiffersAt("Category: ", c.name.GetOr(""), "Dietary Tags: ", 0);
    DiffersAt("Category Description: ", c.description.GetOr(""), "Dietary Tags: ", 0);
    DiffersAt("Description: ", item.description.GetOr(""), "Dietary Tags: ", 1);
    DiffersAt("Price: $", PriceText(item.price.GetOr(0)), "Dietary Tags: ", 0);
  }

  lemma BaseHasNoCalories(c: Category, item: MenuItem)
    ensures !HasLine(ItemBase(c, item), "Calories: ")
  {
    DiffersAt("Menu Item: ", item.name.GetOr(""), "Calories: ", 0);
    DiffersAt("Category: ", c.name.GetOr(""), "Calories: ", 2);
    DiffersAt("Category Description: ", c.description.GetOr(""), "Calories: ", 2);
    DiffersAt("Description: ", item.description.GetOr(""), "Calories: ", 0);
    DiffersAt("Price: $", PriceText(item.price.GetOr(0)), "Calories: ", 0);
  }

  lemma BaseHasNoPopular(c: Category, item: MenuItem)
    ensures !HasLine(ItemBase(c, item), "Popular Item: ")
  {
    DiffersAt("Menu Item: ", item.name.GetOr(""), "Popular Item: ", 0);
    DiffersAt("Category: ", c.name.GetOr(""), "Popular Item: ", 0);
    DiffersAt("Category Description: ", c.description.GetOr(""), "Popular Item: ", 0);
    DiffersAt("Description: ", item.description.GetOr(""), "Popular Item: ", 0);
    DiffersAt("Price: $", PriceText(item.price.GetOr(0)), "Popular Item: ", 1);
  }

  lemma BaseHasNoChef(c: Category, item: MenuItem)
    ensures !HasLine(ItemBase(c, item), "Chef's Recommendation: ")
  {
    DiffersAt("Menu Item: ", item.name.GetOr(""), "Chef's Recommendation: ", 0);
    DiffersAt("Category: ", c.name.GetOr(""), "Chef's Recommendation: ", 1);
    DiffersAt("Category Description: ", c.description.GetOr(""), "Chef's Recommendation: ", 1);
    DiffersAt("Description: ", item.description.GetOr(""), "Chef's Recommendation: ", 0);
    DiffersAt("Price: $", PriceText(item.price.GetOr(0)), "Chef's Recommendation: ", 0);
  }

  lemma DietaryLineStarts(item: MenuItem)
    ensures HasLine(DietaryLine(item), "Dietary Tags: ") <==> DietaryTags(item) != []
    ensures !HasLine(DietaryLine(item), "Calories: ") && !HasLine(DietaryLine(item), "Popular Item: ")
    ensures !HasLine(DietaryLine(item), "Chef's Recommendation: ")
  {
    var tags := "Dietary Tags: " + Join(DietaryTags(item), ", ");
    PrefixStarts("Dietary Tags: ", Join(DietaryTags(item), ", "));
    DiffersAt("Dietary Tags: ", Join(DietaryTags(item), ", "), "Calories: ", 0);
    DiffersAt("Dietary Tags: ", Join(DietaryTags(item), ", "), "Popular Item: ", 0);
    DiffersAt("Dietary Tags: ", Join(DietaryTags(item), ", "), "Chef's Recommendation: ", 0);
    OptionalLine(DietaryTags(item) != [], tags, "Dietary Tags: ");
    OptionalLine(DietaryTags(item) != [], tags, "Calories: ");
    OptionalLine(DietaryTags(item) != [], tags, "Popular Item: ");
    OptionalLine(DietaryTags(item) != [], tags, "Chef's Recommendation: ");
  }

  lemma CaloriesLineStarts(item: MenuItem)
    ensures HasLine(CaloriesLine(item), "Calories: ") <==> item.calories.Some? && item.calories.value != 0
    ensures !HasLine(CaloriesLine(item), "Dietary Tags: ") && !HasLine(CaloriesLine(item), "Popular Item: ")
    ensures !HasLine(CaloriesLine(item), "Chef's Recommendation: ")
  {
    var cal := "Calories: " + NatToString(item.calories.GetOr(0));
    var present := item.calories.Some? && item.calories.value != 0;
    PrefixStarts("Calories: ", NatToString(item.calories.GetOr(0)));
    DiffersAt("Calories: ", NatToString(item.calories.GetOr(0)), "Dietary Tags: ", 0);
    DiffersAt("Calories: ", NatToString(item.calories.GetOr(0)), "Popular Item: ", 0);
    DiffersAt("Calories: ", NatToString(item.calories.GetOr(0)), "Chef's Recommendation: ", 1);
    OptionalLine(present, cal, "Dietary Tags: ");
    OptionalLine(present, cal, "Calories: ");
    OptionalLine(present, cal, "Popular Item: ");
    OptionalLine(present, cal, "Chef's Recommendation: ");
  }

  lemma PopularLineStarts(item: MenuItem)
    ensures HasLine(PopularLine(item), "Popular Item: ") <==> item.popular
    ensures !HasLine(PopularLine(item), "Dietary Tags: ") && !HasLine(PopularLine(item), "Calories: ")
    ensures !HasLine(PopularLine(item), "Chef's Recommendation: ")
  {
    var pop := "Popular Item: Yes";
    assert StartsWith(pop, "Popular Item: ");
    DiffersAt(pop, "", "Dietary Tags: ", 0);
    DiffersAt(pop, "", "Calories: ", 0);
    DiffersAt(pop, "", "Chef's Recommendation: ", 0);
    assert pop + "" == pop;
    OptionalLine(item.popular, pop, "Dietary Tags: ");
    OptionalLine(item.popular, pop, "Calories: ");
    OptionalLine(item.popular, pop, "Popular Item: ");
    OptionalLine(item.popular, pop, "Chef's Recommendation: ");
  }

  lemma ChefLineStarts(item: MenuItem)
    ensures HasLine(ChefLine(item), "Chef's Recommendation: ") <==> item.chefRecommended
    ensures !HasLine(ChefLine(item), "Dietary Tags: ") && !HasLine(ChefLine(item), "Calories: ")
    ensures !HasLine(ChefLine(item), "Popular Item: ")
  {
    var chef := "Chef's Recommendation: Yes";
    assert StartsWith(chef, "Chef's Recommendation: ");
    DiffersAt(chef, "", "Dietary Tags: ", 0);
    DiffersAt(chef, "", "Calories: ", 1);
    DiffersAt(chef, "", "Popular Item: ", 0);
    assert chef + "" == chef;
    OptionalLine(item.chefRecommended, chef, "Dietary Tags: ");
    OptionalLine(item.chefRecommended, chef, "Calories: ");
    OptionalLine(item.chefRecommended, chef, "Popular Item: ");
    OptionalLine(item.chefRecommended, chef, "Chef's Recommendation: ");
  }

  /** `HasLine` over the five parts of an item's lines. */
  lemma ItemLinesParts(c: Category, item: MenuItem, prefix: string)
    ensures HasLine(ItemLines(c, item), prefix) <==>
              HasLine(ItemBase(c, item), prefix) || HasLine(DietaryLine(item), prefix) ||
              HasLine(CaloriesLine(item), prefix) || HasLine(PopularLine(item), prefix) ||
              HasLine(ChefLine(item), prefix)
  {
    var b, d, k, p, f := ItemBase(c, item), DietaryLine(item), CaloriesLine(item), PopularLine(item), ChefLine(item);
    HasLineConcat(b, d, prefix);
    HasLineConcat(b + d, k, prefix);
    HasLineConcat(b + d + k, p, prefix);
    HasLineConcat(b + d + k + p, f, prefix);
  }

  /** Each conditional line is present exactly when its field is truthy. */
  lemma ItemConditionalLines(c: Category, item: MenuItem)
    ensures HasLine(ItemLines(c, item), "Dietary Tags: ") <==> item.vegetarian || item.vegan || item.glutenFree
    ensures HasLine(ItemLines(c, item), "Calories: ") <==> item.calories.Some? && item.calories.value != 0
    ensures HasLine(ItemLines(c, item), "Popular Item: ") <==> item.popular
    ensures HasLine(ItemLines(c, item), "Chef's Recommendation: ") <==> item.chefRecommended
  {
    BaseHasNoDietary(c, item);
    BaseHasNoCalories(c, item);
    BaseHasNoPopular(c, item);
    BaseHasNoChef(c, item);
    DietaryLineStarts(item);
    CaloriesLineStarts(item);
    PopularLineStarts(item);
    ChefLineStarts(item);
    DietaryTagsMeaning(item);
    ItemLinesParts(c, item, "Dietary Tags: ");
    ItemLinesParts(c, item, "Calories: ");
    ItemLinesParts(c, item, "Popular Item: ");
    ItemLinesParts(c, item, "Chef's Recommendation: ");
  }

  /** When present, the dietary line lists the tags in the fixed order. */
  lemma DietaryLineText(c: Category, item: MenuItem)
    requires item.vegetarian || item.vegan || item.glutenFree
    ensures ItemLines(c, item)[5] == "Dietary Tags: " + Join(DietaryTags(item), ", ")
  {
    DietaryTagsMeaning(item);
  }

  /** The text of five lists of lines is the five texts in turn. */
  lemma LinesOfParts(a: seq<string>, b: seq<string>, c: seq<string>, d: seq<string>, e: seq<string>)
    ensures Lines(a + b + c + d + e) == Lines(a) + Lines(b) + Lines(c) + Lines(d) + Lines(e)
  {
    LinesAppend(a + b + c + d, e);
    LinesAppend(a + b + c, d);
    LinesAppend(a + b, c);
    LinesAppend(a, b);
  }

  /** The text of a line that may be left out. */
  lemma LinesOfOptional(present: bool, l: string)
    ensures Lines(if present then [l] else []) == if present then Line(l) else ""
  {
    if present {
      LinesSnoc([], l);
      assert [] + [l] == [l];
    }
  }

  lemma ItemLinesText(c: Category, item: MenuItem)
    ensures Lines(ItemLines(c, item)) == Lines(ItemBase(c, item)) + Lines(DietaryLine(item)) +
              Lines(CaloriesLine(item)) + Lines(PopularLine(item)) + Lines(ChefLine(item))
  {
    LinesOfParts(ItemBase(c, item), DietaryLine(item), CaloriesLine(item), PopularLine(item), ChefLine(item));
  }

  /** The five fixed lines of an item, built as in lines 42-46. */
  method ItemBaseContent(c: Category, item: MenuItem) returns (content: string)
    ensures content == Lines(ItemBase(c, item))
  {
    var name, cname, cdesc := item.name.GetOr(""), c.name.GetOr(""), c.description.GetOr("");
    var desc, price := item.description.GetOr(""), PriceText(item.price.GetOr(0));
    content := "Menu Item: " + name + "\n";
    content := content + ("Category: " + cname + "\n");
    content := content + ("Category Description: " + cdesc + "\n");
    content := content + ("Description: " + desc + "\n");
    content := content + ("Price: $" + price + "\n");
    LinesOfFive("Menu Item: " + name, "Category: " + cname, "Category Description: " + cdesc,
      "Description: " + desc, "Price: $" + price);
  }

  /** Lines 48-61: the dietary-tags and calories lines appended to `base`. */
  method AppendDietary(base: string, item: MenuItem) returns (content: string)
    ensures content == base + Lines(DietaryLine(item)) + Lines(CaloriesLine(item))
  {
    content := base;
    var tags := CollectDietaryTags(item);
    if tags != [] {
      content := content + ("Dietary Tags: " + Join(tags, ", ") + "\n");
    }
    LinesOfOptional(tags != [], "Dietary Tags: " + Join(tags, ", "));
    ghost var dietary := content;
    if item.calories.Some? && item.calories.value != 0 {
      content := content + ("Calories: " + NatToString(item.calories.value) + "\n");
    }
    LinesOfOptional(item.calories.Some? && item.calories.value != 0, "Calories: " + NatToString(item.calories.GetOr(0)));
  }

  /** Lines 63-67: the popular and chef's-recommendation lines appended to
      `base`. */
  method AppendMarks(base: string, item: MenuItem) returns (content: string)
    ensures content == base + Lines(PopularLine(item)) + Lines(ChefLine(item))
  {
    content := base;
    if item.popular {
      content := content + ("Popular Item: Yes" + "\n");
    }
    LinesOfOptional(item.popular, "Popular Item: Yes");
    ghost var popular := content;
    if item.chefRecommended {
      content := content + ("Chef's Recommendation: Yes" + "\n");
    }
    LinesOfOptional(item.chefRecommended, "Chef's Recommendation: Yes");
  }

  /** The text of one item, built as in lines 42-67. */
  method ItemContent(c: Category, item: MenuItem) returns (content: string)
    ensures content == Lines(ItemLines(c, item))
  {
    content := ItemBaseContent(c, item);
    content := AppendDietary(content, item);
    content := AppendMarks(content, item);
    ItemLinesText(c, item);
  }

  // ---------------------------------------------------------------------
  // Specials
  // ---------------------------------------------------------------------

  function OfferLines(offers: seq<string>): (ls: seq<string>)
    ensures |ls| == |offers|
  {
    if offers == [] then [] else OfferLines(offers[..|offers| - 1]) + ["- " + offers[|offers| - 1]]
  }

  function HappyHead(h: HappyHour): seq<string> {
    [ "Happy Hour Specials:",
      "Times: " + h.times.GetOr(""),
      "Days: " + Join(h.days, ", "),
      "Offers:" ]
  }

  function HappyHourLines(h: HappyHour): seq<string> {
    HappyHead(h) + OfferLines(h.offers)
  }

  /** Four fixed lines, then one `- offer` line per offer, in order. */
  lemma {:induction false} HappyHourLinesShape(h: HappyHour, k: nat)
    requires k < |h.offers|
    ensures |HappyHourLines(h)| == 4 + |h.offers|
    ensures HappyHourLines(h)[4 + k] == "- " + h.offers[k]
  {
    OfferLinesAt(h.offers, k);
  }

  lemma {:induction false} OfferLinesAt(offers: seq<string>, k: nat)
    requires k < |offers|
    ensures OfferLines(offers)[k] == "- " + offers[k]
  {
    if k < |offers| - 1 {
      OfferLinesAt(offers[..|offers| - 1], k);
    }
  }

  /** `acc` followed by the offer lines, as the loop appends them. */
  function OffersFrom(acc: string, offers: seq<string>): string {
    if offers == [] then acc else OffersFrom(acc, offers[..|offers| - 1]) + Line("- " + offers[|offers| - 1])
  }

  lemma {:induction false} OffersFromLines(acc: string, offers: seq<string>)
    ensures OffersFrom(acc, offers) == acc + Lines(OfferLines(offers))
  {
    if offers != [] {
      var init, last := offers[..|offers| - 1], offers[|offers| - 1];
      OffersFromLines(acc, init);
      LinesSnoc(OfferLines(init), "- " + last);
    }
  }

  /** The happy-hour text, built as in lines 77-82. */
  method HappyHourContent(h: HappyHour) returns (content: string)
    ensures content == Lines(HappyHourLines(h))
  {
    content := "Happy Hour Specials:" + "\n";
    content := content + ("Times: " + h.times.GetOr("") + "\n");
    content := content + ("Days: " + Join(h.days, ", ") + "\n");
    content := content + ("Offers:" + "\n");
    LinesOfFour("Happy Hour Specials:", "Times: " + h.times.GetOr(""), "Days: " + Join(h.days, ", "), "Offers:");
    ghost var head := content;
    var i := 0;
    while i < |h.offers|
      invariant 0 <= i <= |h.offers|
      invariant content == OffersFrom(head, h.offers[..i])
    {
      var offer := h.offers[i];
      assert h.offers[..i + 1][..i] == h.offers[..i];
      content := content + ("- " + offer + "\n");
      i := i + 1;
    }
    assert h.offers[..i] == h.offers;
    OffersFromLines(head, h.offers);
    LinesAppend(HappyHead(h), OfferLines(h.offers));
  }

  function WeeklyLines(w: WeeklySpecial): seq<string> {
    [ "Special Event: " + w.name.GetOr(""),
      "Description: " + w.description.GetOr(""),
      "Valid Days: " + Join(w.validDays, ", ") ]
  }

  /** The text of a weekly special, built as in lines 87-89. */
  method WeeklyContent(w: WeeklySpecial) returns (content: string)
    ensures content == Lines(WeeklyLines(w))
  {
    content := "Special Event: " + w.name.GetOr("") + "\n";
    content := content + ("Description: " + w.description.GetOr("") + "\n");
    content := content + ("Valid Days: " + Join(w.validDays, ", ") + "\n");
    LinesOfThree("Special Event: " + w.name.GetOr(""), "Description: " + w.description.GetOr(""),
      "Valid Days: " + Join(w.validDays, ", "));
  }

  // ---------------------------------------------------------------------
  // The document list
  // ---------------------------------------------------------------------

  function InfoDoc(r: Restaurant): Document {
    Document(Lines(InfoLines(r)), RestaurantInfo)
  }

  function ItemDoc(l: Listed): Document {
    Document(Lines(ItemLines(l.0, l.1)), MenuItemDoc)
  }

  function HappyDocs(hh: Option<HappyHour>): seq<Document> {
    if hh.Some? then [Document(Lines(HappyHourLines(hh.value)), SpecialEvent)] else []
  }

  function WeeklyDoc(w: WeeklySpecial): Document {
    Document(Lines(WeeklyLines(w)), SpecialEvent)
  }

  /** The documents in output order: the restaurant record, the menu items,
      the happy hour, the weekly specials. */
  function Documents(data: Dataset): seq<Document> {
    [InfoDoc(data.restaurant)] + Map(ItemDoc, AllItems(data.categories)) +
    HappyDocs(data.happyHour) + Map(WeeklyDoc, data.weeklySpecials)
  }

  /** One document for the restaurant, one per menu item, one for a
      non-empty happy hour and one per weekly special. */
  lemma DocumentCount(data: Dataset)
    ensures |Documents(data)| ==
              1 + TotalItems(data.categories) + (if data.happyHour.Some? then 1 else 0) + |data.weeklySpecials|
  {
  }

  /** Where each element of a list made of one element, a mapped sequence,
      a sequence and another mapped sequence comes from. */
  lemma OrderOfParts<A, B, T>(x: T, f: A -> T, s: seq<A>, c: seq<T>, g: B -> T, ws: seq<B>, k: nat)
    requires k < 1 + |s| + |c| + |ws|
    ensures k == 0 ==> ([x] + Map(f, s) + c + Map(g, ws))[k] == x
    ensures 0 < k <= |s| ==> ([x] + Map(f, s) + c + Map(g, ws))[k] == f(s[k - 1])
    ensures |s| < k <= |s| + |c| ==> ([x] + Map(f, s) + c + Map(g, ws))[k] == c[k - 1 - |s|]
    ensures |s| + |c| < k ==> ([x] + Map(f, s) + c + Map(g, ws))[k] == g(ws[k - 1 - |s| - |c|])
  {
    var ms, mw := Map(f, s), Map(g, ws);
    var a := [x] + ms;
    var b := a + c;
    assert [x] + ms + c + mw == b + mw;
    if k <= |s| {
      assert (b + mw)[k] == b[k] == a[k];
      if k > 0 {
        assert a[k] == ms[k - 1];
        MapAt(f, s, k - 1);
      }
    } else if k <= |s| + |c| {
      assert (b + mw)[k] == b[k] == c[k - 1 - |s|];
    } else {
      assert (b + mw)[k] == mw[k - 1 - |s| - |c|];
      MapAt(g, ws, k - 1 - |s| - |c|);
    }
  }

  /** The first document is the restaurant record, whatever the input; then
      come the menu items in category and item order. */
  lemma DocumentOrder(data: Dataset, k: nat)
    requires k < |Documents(data)|
    ensures k == 0 ==> Documents(data)[k] == InfoDoc(data.restaurant)
    ensures 0 < k <= TotalItems(data.categories) ==>
              Documents(data)[k] == ItemDoc(AllItems(data.categories)[k - 1])
  {
    OrderOfParts(InfoDoc(data.restaurant), ItemDoc, AllItems(data.categories), HappyDocs(data.happyHour),
      WeeklyDoc, data.weeklySpecials, k);
  }

  /** The `type` of each document: the restaurant record first, then the
      menu items, then the special events. */
  lemma DocumentTypes(data: Dataset, k: nat)
    requires k < |Documents(data)|
    ensures Documents(data)[k].docType ==
              if k == 0 then RestaurantInfo
              else if k <= TotalItems(data.categories) then MenuItemDoc
              else SpecialEvent
  {
    var n, c := TotalItems(data.categories), HappyDocs(data.happyHour);
    OrderOfParts(InfoDoc(data.restaurant), ItemDoc, AllItems(data.categories), c,
      WeeklyDoc, data.weeklySpecials, k);
    if n < k <= n + |c| {
      assert c[k - 1 - n].docType == SpecialEvent;
    } else if n + |c| < k {
      assert WeeklyDoc(data.weeklySpecials[k - 1 - n - |c|]).docType == SpecialEvent;
    }
  }

  /** Lines 42-69: the document of one item appended. */
  method AppendItem(before: seq<Document>, category: Category, item: MenuItem) returns (documents: seq<Document>)
    ensures documents == before + [ItemDoc((category, item))]
  {
    var content := ItemContent(category, item);
    documents := before + [Document(content, MenuItemDoc)];
  }

  /** Lines 41-69: one document per item of a category, appended in order. */
  method AppendCategory(before: seq<Document>, category: Category) returns (documents: seq<Document>)
    ensures documents == MapFrom(before, ItemDoc, Listing(category, category.items))
  {
    documents := before;
    var items := category.items;
    var j := 0;
    while j < |items|
      invariant 0 <= j <= |items|
      invariant documents == MapFrom(before, ItemDoc, Listing(category, items[..j]))
    {
      documents := AppendItem(documents, category, items[j]);
      ListingStep(category, items, j);
      MapFromSnoc(before, ItemDoc, Listing(category, items[..j]), (category, items[j]));
      j := j + 1;
    }
    assert items[..j] == items;
  }

  /** Lines 37-69: the documents of every menu item, in category order and
      then item order. */
  method AppendMenu(before: seq<Document>, cats: seq<Category>) returns (documents: seq<Document>)
    ensures documents == before + Map(ItemDoc, AllItems(cats))
  {
    documents := before;
    var c := 0;
    while c < |cats|
      invariant 0 <= c <= |cats|
      invariant documents == MapFrom(before, ItemDoc, AllItems(cats[..c]))
    {
      documents := AppendCategory(documents, cats[c]);
      AllItemsStep(cats, c);
      MapFromAppend(before, ItemDoc, AllItems(cats[..c]), Listing(cats[c], cats[c].items));
      c := c + 1;
    }
    assert cats[..c] == cats;
    MapFromIsAppend(before, ItemDoc, AllItems(cats));
  }

  /** Lines 86-90: one document per weekly special, in order. */
  method AppendWeekly(before: seq<Document>, ws: seq<WeeklySpecial>) returns (documents: seq<Document>)
    ensures documents == before + Map(WeeklyDoc, ws)
  {
    documents := before;
    var w := 0;
    while w < |ws|
      invariant 0 <= w <= |ws|
      invariant documents == MapFrom(before, WeeklyDoc, ws[..w])
    {
      var content := WeeklyContent(ws[w]);
      MapFromSnoc(before, WeeklyDoc, ws[..w], ws[w]);
      assert ws[..w + 1] == ws[..w] + [ws[w]];
      documents := documents + [Document(content, SpecialEvent)];
      w := w + 1;
    }
    assert ws[..w] == ws;
    MapFromIsAppend(before, WeeklyDoc, ws);
  }

  /** `create_documents_from_data`. */
  method CreateDocumentsFromData(data: Dataset) returns (documents: seq<Document>)
    ensures documents == Documents(data)
  {
    var info := InfoContent(data.restaurant);
    documents := [Document(info, RestaurantInfo)];
    documents := AppendMenu(documents, data.categories);
    if data.happyHour.Some? {
      var content := HappyHourContent(data.happyHour.value);
      documents := documents + [Document(content, SpecialEvent)];
    }
    documents := AppendWeekly(documents, data.weeklySpecials);
  }
}
