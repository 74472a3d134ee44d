/**
 * The 3-pack SKU: `"3P-" + kindCode + "-" + components.join("-")`, where each
 * component is a flavor code, suffixed with `"x" + quantity` when the flavor
 * appears more than once in the pack. Both 3-pack controllers carry the same
 * `generateSKU`; this module is the single model of it.
 */
module Sku {
  import opened Wrappers
  import opened Text

  /** A recipe item as the SKU sees it: the joined flavor name and its per-pack count. */
  datatype SkuItem = SkuItem(flavorName: string, quantity: int)

  /** The three-entry kind table; any other kind is "UNK". */
  function KindCode(kind: string): string {
    if kind == "Traditional" then "TRD"
    else if kind == "Sour" then "SOR"
    else if kind == "Sweet" then "SWE"
    else "UNK"
  }

  /** The nine-entry flavor table; any other name is "UNK". */
  function FlavorCode(name: string): string {
    if name == "Red Twist" then "RED"
    else if name == "Blue Raspberry" then "BLURAS"
    else if name == "Fruit Rainbow" then "FRURAI"
    else if name == "Green Apple" then "GREAPP"
    else if name == "Watermelon" then "WAT"
    else if name == "Cherry" then "CHE"
    else if name == "Berry Delight" then "BERDEL"
    else if name == "Cotton Candy" then "COT"
    else if name == "Strawberry Banana" then "STRBAN"
    else "UNK"
  }

  /** A code is a non-empty run of upper-case letters (so it holds neither '-' nor 'x'). */
  predicate IsCode(c: string) {
    |c| >= 1 && forall i | 0 <= i < |c| :: 'A' <= c[i] <= 'Z'
  }

  lemma KindCodeIsCode(kind: string)
    ensures IsCode(KindCode(kind)) && |KindCode(kind)| == 3
  {
  }

  /** Every string of upper-case letters from the code tables is a code. */
  lemma UpperIsCode(c: string)
    requires c in ["TRD", "SOR", "SWE", "UNK", "RED", "BLURAS", "FRURAI", "GREAPP", "WAT", "CHE", "BERDEL", "COT", "STRBAN"]
    ensures IsCode(c)
  {
  }

  lemma FlavorCodeIsCode(name: string)
    ensures IsCode(FlavorCode(name))
  {
    UpperIsCode(FlavorCode(name));
  }

  function Component(item: SkuItem): string {
    var code := FlavorCode(item.flavorName);
    if item.quantity > 1 then code + "x" + NatToString(item.quantity) else code
  }

  function Components(items: seq<SkuItem>): seq<string> {
    seq(|items|, i requires 0 <= i < |items| => Component(items[i]))
  }

  /** `generateSKU(kind, items)`. */
  function GenerateSku(kind: string, items: seq<SkuItem>): string {
    "3P-" + KindCode(kind) + "-" + Join(Components(items), '-')
  }

  /** The code does not change the flavor code unless the flavor is counted more than once. */
  lemma SuffixOnlyWhenRepeated(item: SkuItem)
    ensures Component(item) == FlavorCode(item.flavorName) <==> item.quantity <= 1
  {
    if item.quantity > 1 {
      assert |Component(item)| > |FlavorCode(item.flavorName)|;
    }
  }

  /** What a SKU says: the kind code and, per component, a flavor code and a count. */
  datatype SkuParts = SkuParts(kindCode: string, components: seq<(string, int)>)

  function DecodeComponent(c: string): Option<(string, int)> {
    if 'x' in c then
      var i := IndexOf(c, 'x');
      match ParseNat(c[i + 1..])
      case Some(n) => Some((c[..i], n as int))
      case None => None
    else Some((c, 1))
  }

  function DecodeComponents(cs: seq<string>): Option<seq<(string, int)>> {
    if cs == [] then Some([])
    else
      match (DecodeComponent(cs[0]), DecodeComponents(cs[1..]))
      case (Some(d), Some(ds)) => Some([d] + ds)
      case _ => None
  }

  /** Reads a SKU back into its parts; the inverse of `GenerateSku` on well-formed recipes. */
  function DecodeSku(sku: string): Option<SkuParts> {
    var parts := Split(sku, '-');
    if |parts| >= 3 && parts[0] == "3P" then
      match DecodeComponents(parts[2..])
      case Some(cs) => Some(SkuParts(parts[1], cs))
      case None => None
    else None
  }

  /** Flavor code and count of each item, in recipe order. */
  function ExpectedParts(items: seq<SkuItem>): seq<(string, int)> {
    seq(|items|, i requires 0 <= i < |items| => (FlavorCode(items[i].flavorName), items[i].quantity))
  }

  lemma ComponentHasNoDash(item: SkuItem)
    ensures '-' !in Component(item)
  {
    FlavorCodeIsCode(item.flavorName);
    if item.quantity > 1 {
      var code := FlavorCode(item.flavorName);
      var digits := NatToString(item.quantity);
      assert Component(item) == code + "x" + digits;
      assert forall i | 0 <= i < |Component(item)| :: Component(item)[i] != '-' by {
        forall i | 0 <= i < |Component(item)|
          ensures Component(item)[i] != '-'
        {
          if i < |code| {
            assert Component(item)[i] == code[i];
          } else if i > |code| {
            assert Component(item)[i] == digits[i - |code| - 1];
          }
        }
      }
    }
  }

  lemma DecodeComponentOf(item: SkuItem)
    requires item.quantity >= 1
    ensures DecodeComponent(Component(item)) == Some((FlavorCode(item.flavorName), item.quantity))
  {
    var code := FlavorCode(item.flavorName);
    FlavorCodeIsCode(item.flavorName);
    assert 'x' !in code;
    if item.quantity > 1 {
      var digits := NatToString(item.quantity);
      var c := Component(item);
      assert c == code + ['x'] + digits;
      IndexOfAfterPrefix(code, 'x', digits);
      assert c[..|code|] == code;
      assert c[|code| + 1..] == digits;
      ParseNatToString(item.quantity);
    }
  }

  lemma {:induction false} DecodeComponentsOf(items: seq<SkuItem>)
    requires forall i | 0 <= i < |items| :: items[i].quantity >= 1
    ensures DecodeComponents(Components(items)) == Some(ExpectedParts(items))
  {
    if items != [] {
      var tail := items[1..];
      assert forall i | 0 <= i < |tail| :: tail[i] == items[i + 1];
      DecodeComponentOf(items[0]);
      DecodeComponentsOf(tail);
      var cs := Components(items);
      assert cs[0] == Component(items[0]);
      assert cs[1..] == Components(tail);
      assert ExpectedParts(items) == [(FlavorCode(items[0].flavorName), items[0].quantity)] + ExpectedParts(tail);
    }
  }

  lemma JoinCons(p: string, rest: seq<string>, sep: char)
    requires |rest| >= 1
    ensures Join([p] + rest, sep) == p + [sep] + Join(rest, sep)
  {
    assert ([p] + rest)[1..] == rest;
  }

  /**
   * Round trip: a SKU decodes to the kind code and to each item's flavor code and
   * count, in recipe order, whenever the recipe has items and every count is at least 1.
   */
  lemma DecodeGenerate(kind: string, items: seq<SkuItem>)
    requires |items| >= 1
    requires forall i | 0 <= i < |items| :: items[i].quantity >= 1
    ensures DecodeSku(GenerateSku(kind, items)) == Some(SkuParts(KindCode(kind), ExpectedParts(items)))
  {
    var parts := SkuParts3(kind, items);
    GenerateSkuJoins(kind, items);
    PartsHaveNoDash(kind, items);
    SplitJoin(parts, '-');
    assert parts[2..] == Components(items);
    DecodeComponentsOf(items);
  }

  /** The parts a SKU is joined from: "3P", the kind code, then one component per item. */
  function SkuParts3(kind: string, items: seq<SkuItem>): seq<string> {
    ["3P", KindCode(kind)] + Components(items)
  }

  lemma GenerateSkuJoins(kind: string, items: seq<SkuItem>)
    requires |items| >= 1
    ensures GenerateSku(kind, items) == Join(SkuParts3(kind, items), '-')
  {
    var k := KindCode(kind);
    var cs := Components(items);
    var parts := SkuParts3(kind, items);
    JoinCons(k, cs, '-');
    assert [k] + cs == parts[1..];
    JoinCons("3P", [k] + cs, '-');
    assert parts == ["3P"] + ([k] + cs);
  }

  lemma PartsHaveNoDash(kind: string, items: seq<SkuItem>)
    ensures forall i | 0 <= i < |SkuParts3(kind, items)| :: '-' !in SkuParts3(kind, items)[i]
  {
    var parts := SkuParts3(kind, items);
    KindCodeIsCode(kind);
    forall i | 0 <= i < |parts|
      ensures '-' !in parts[i]
    {
      if i >= 2 {
        assert parts[i] == Component(items[i - 2]);
        ComponentHasNoDash(items[i - 2]);
      }
    }
  }

  /** Seed data: the Traditional pack of three Red Twist. */
  lemma SeedSkuTraditionalRedTwist()
    ensures GenerateSku("Traditional", [SkuItem("Red Twist", 3)]) == "3P-TRD-REDx3"
  {
  }

  /** Seed data: the Sour pack of Watermelon, Cherry and Berry Delight. */
  lemma SeedSkuSourWatermelonCherryBerry()
    ensures GenerateSku("Sour", [SkuItem("Watermelon", 1), SkuItem("Cherry", 1), SkuItem("Berry Delight", 1)])
         == "3P-SOR-WAT-CHE-BERDEL"
  {
    var items := [SkuItem("Watermelon", 1), SkuItem("Cherry", 1), SkuItem("Berry Delight", 1)];
    SourComponents();
    assert Join(["WAT", "CHE", "BERDEL"], '-') == "WAT-CHE-BERDEL";
    KindCodeSour();
    assert GenerateSku("Sour", items) == "3P-" + "SOR" + "-" + "WAT-CHE-BERDEL";
  }

  lemma KindCodeSour()
    ensures KindCode("Sour") == "SOR"
  {
  }

  lemma SourComponents()
    ensures Components([SkuItem("Watermelon", 1), SkuItem("Cherry", 1), SkuItem("Berry Delight", 1)])
         == ["WAT", "CHE", "BERDEL"]
  {
    assert FlavorCode("Watermelon") == "WAT";
    assert FlavorCode("Cherry") == "CHE";
    assert FlavorCode("Berry Delight") == "BERDEL";
  }
}
