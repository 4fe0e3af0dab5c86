/**
 The item customizer: a menu item plus one selection (size, two paid add-ons,
 two removals, free-text notes, quantity) becomes a priced cart line with an
 identity key. Money is in integer cents.
 */
module Customization {
  import opened Wrappers
  import opened Text

  datatype Size = Small | Medium | Large

  /** The size as it is written into the key and the display name. */
  function SizeTag(s: Size): (r: string)
    ensures r != []
  {
    match s
    case Small => "small"
    case Medium => "medium"
    case Large => "large"
  }

  /** A catalog item, read-only here; `basePrice` in cents. */
  datatype MenuItem = MenuItem(id: string, name: string, basePrice: int)

  datatype Selection = Selection(
    size: Size,
    extraShot: bool,
    oatMilk: bool,
    noSugar: bool,
    noFoam: bool,
    notes: string,
    quantity: int)

  /** One cart entry as handed to the cart store; `id` is the identity key. */
  datatype LineItem = LineItem(
    id: string,
    itemId: string,
    name: string,
    basePrice: int,
    quantity: int,
    finalLinePrice: int,
    notes: Option<string>)

  const ExtraShotCents := 80
  const OatMilkCents := 50

  /** The add-on surcharge per unit: only the two paid add-ons contribute. */
  function AddonPrice(sel: Selection): (r: int)
    ensures 0 <= r <= ExtraShotCents + OatMilkCents
    ensures r == 0 <==> !sel.extraShot && !sel.oatMilk
    ensures sel.extraShot && sel.oatMilk <==> r == ExtraShotCents + OatMilkCents
  {
    (if sel.extraShot then ExtraShotCents else 0) + (if sel.oatMilk then OatMilkCents else 0)
  }

  function UnitPrice(item: MenuItem, sel: Selection): (r: int)
    ensures item.basePrice <= r <= item.basePrice + ExtraShotCents + OatMilkCents
  {
    item.basePrice + AddonPrice(sel)
  }

  /** The line price: for a quantity of at least one, between the base price
      and the base price plus both add-ons, each times the quantity. */
  function LinePrice(item: MenuItem, sel: Selection): (r: int)
    ensures sel.quantity >= 1 ==>
      item.basePrice * sel.quantity <= r <= (item.basePrice + ExtraShotCents + OatMilkCents) * sel.quantity
  {
    if sel.quantity >= 1 then
      PriceBounds(item.basePrice, UnitPrice(item, sel), sel.quantity);
      UnitPrice(item, sel) * sel.quantity
    else
      UnitPrice(item, sel) * sel.quantity
  }

  /** Size, removals and notes never change the price: only the base price,
      the two paid add-ons and the quantity do. */
  lemma PriceIgnoresSizeRemovalsAndNotes(item: MenuItem, a: Selection, b: Selection)
    requires a.extraShot == b.extraShot && a.oatMilk == b.oatMilk
    ensures UnitPrice(item, a) == UnitPrice(item, b)
    ensures a.quantity == b.quantity ==> LinePrice(item, a) == LinePrice(item, b)
  {
  }

  /** The surcharge table, one case per combination of the paid add-ons. */
  lemma UnitPriceTable(item: MenuItem, sel: Selection)
    ensures !sel.extraShot && !sel.oatMilk ==> UnitPrice(item, sel) == item.basePrice
    ensures sel.extraShot && !sel.oatMilk ==> UnitPrice(item, sel) == item.basePrice + 80
    ensures !sel.extraShot && sel.oatMilk ==> UnitPrice(item, sel) == item.basePrice + 50
    ensures sel.extraShot && sel.oatMilk ==> UnitPrice(item, sel) == item.basePrice + 130
  {
  }

  const ExtraShotToken := "extra-shot"
  const OatMilkToken := "oat-milk"
  const NoSugarToken := "no-sugar"
  const NoFoamToken := "no-foam"

  /** The four option parts, in key order; a disabled option gives "". */
  function OptionParts(sel: Selection): seq<string> {
    [if sel.extraShot then ExtraShotToken else ""] +
    ([if sel.oatMilk then OatMilkToken else ""] +
    ([if sel.noSugar then NoSugarToken else ""] +
    [if sel.noFoam then NoFoamToken else ""]))
  }

  /** The key parts in their fixed order, before empty ones are dropped:
      item id, size, the four option parts, trimmed notes. */
  function KeyParts(item: MenuItem, sel: Selection): seq<string> {
    [item.id] + ([SizeTag(sel.size)] + (OptionParts(sel) + [Trim(sel.notes)]))
  }

  /** The identity key: the non-empty parts joined with `|`. */
  function Key(item: MenuItem, sel: Selection): string {
    Join(NonEmptyParts(KeyParts(item, sel)), '|')
  }

  /** The part of the key contributed by the item id. */
  function IdPrefix(id: string): string {
    if id == [] then [] else id + "|"
  }

  /** `|token` when the option is on, nothing otherwise. */
  function Segment(on: bool, token: string): string {
    if on then "|" + token else ""
  }

  /** The part of the key contributed by the four option flags. */
  function FlagSegments(extraShot: bool, oatMilk: bool, noSugar: bool, noFoam: bool): string {
    Segment(extraShot, ExtraShotToken) + (Segment(oatMilk, OatMilkToken) +
    (Segment(noSugar, NoSugarToken) + Segment(noFoam, NoFoamToken)))
  }

  /** The part of the key contributed by the notes. */
  function NotesSegment(notes: string): string {
    if Trim(notes) == [] then [] else "|" + Trim(notes)
  }

  /** The option parts, filtered and each put behind a `|`, are the flag segments. */
  lemma FlagSegmentsFromParts(sel: Selection)
    ensures Prefixed(NonEmptyParts(OptionParts(sel)), '|') ==
            FlagSegments(sel.extraShot, sel.oatMilk, sel.noSugar, sel.noFoam)
  {
    var e, o, n, f := if sel.extraShot then ExtraShotToken else "", if sel.oatMilk then OatMilkToken else "",
                      if sel.noSugar then NoSugarToken else "", if sel.noFoam then NoFoamToken else "";
    PrefixedFilteredFour(e, o, n, f, '|');
    assert PrefixedPart(e, '|') == Segment(sel.extraShot, ExtraShotToken);
    assert PrefixedPart(o, '|') == Segment(sel.oatMilk, OatMilkToken);
    assert PrefixedPart(n, '|') == Segment(sel.noSugar, NoSugarToken);
    assert PrefixedPart(f, '|') == Segment(sel.noFoam, NoFoamToken);
  }

  /** The key read segment by segment: the id and a `|` (nothing for an empty id),
      the size, one `|token` per enabled flag, and `|notes` when the trimmed
      notes are not empty. */
  lemma KeyShape(item: MenuItem, sel: Selection)
    ensures Key(item, sel) ==
            IdPrefix(item.id) + SizeTag(sel.size) +
            FlagSegments(sel.extraShot, sel.oatMilk, sel.noSugar, sel.noFoam) +
            NotesSegment(sel.notes)
  {
    var head, size := IdPrefix(item.id), SizeTag(sel.size);
    var fs, ns := FlagSegments(sel.extraShot, sel.oatMilk, sel.noSugar, sel.noFoam), NotesSegment(sel.notes);
    JoinFilteredShape(item.id, size, OptionParts(sel), Trim(sel.notes), '|');
    FlagSegmentsFromParts(sel);
    assert ns == PrefixedPart(Trim(sel.notes), '|');
    ConcatAssoc(head + size, fs, ns);
  }

  /** Keying is deterministic: selections that agree on size, flags and trimmed
      notes give the same key whatever their raw notes and quantities are. */
  lemma KeyDeterministic(item: MenuItem, a: Selection, b: Selection)
    requires a.size == b.size && a.extraShot == b.extraShot && a.oatMilk == b.oatMilk
    requires a.noSugar == b.noSugar && a.noFoam == b.noFoam && Trim(a.notes) == Trim(b.notes)
    ensures Key(item, a) == Key(item, b)
  {
    assert KeyParts(item, a) == KeyParts(item, b);
  }

  /** Two selections of one item with different sizes never share a key:
      the first letter after the id prefix is the size's, and `s`, `m`, `l` differ. */
  lemma SizeSeparatesKeys(item: MenuItem, a: Selection, b: Selection)
    requires a.size != b.size
    ensures Key(item, a) != Key(item, b)
  {
    KeyShape(item, a);
    KeyShape(item, b);
    var n := |IdPrefix(item.id)|;
    assert Key(item, a)[n] == SizeTag(a.size)[0];
    assert Key(item, b)[n] == SizeTag(b.size)[0];
  }

  /** Peels one optional segment off two equal strings, provided what follows
      the segment cannot begin like it: position `k` of the token tells them apart. */
  lemma SegmentCancel(b1: bool, b2: bool, token: string, k: nat, x: string, y: string)
    requires k < |token|
    requires x == [] || (k + 1 < |x| && x[k + 1] != token[k])
    requires y == [] || (k + 1 < |y| && y[k + 1] != token[k])
    requires Segment(b1, token) + x == Segment(b2, token) + y
    ensures b1 == b2 && x == y
  {
    // an enabled segment shows token[k] at position k + 1; what follows does not
    assert b1 ==> (Segment(b1, token) + x)[k + 1] == token[k];
    assert b2 ==> (Segment(b2, token) + y)[k + 1] == token[k];
    CancelPrefix(Segment(b1, token), x, y);
  }

  /** The flag segments determine the four flags. */
  lemma FlagSegmentsInjective(e1: bool, o1: bool, s1: bool, f1: bool,
                              e2: bool, o2: bool, s2: bool, f2: bool)
    requires FlagSegments(e1, o1, s1, f1) == FlagSegments(e2, o2, s2, f2)
    ensures e1 == e2 && o1 == o2 && s1 == s2 && f1 == f2
  {
    var f1s, f2s := Segment(f1, NoFoamToken), Segment(f2, NoFoamToken);
    var t1, t2 := Segment(s1, NoSugarToken) + f1s, Segment(s2, NoSugarToken) + f2s;
    var u1, u2 := Segment(o1, OatMilkToken) + t1, Segment(o2, OatMilkToken) + t2;
    // after a `|`, "extra-shot" starts with e, "oat-milk" with o, the removals with n
    assert u1 != [] ==> 1 < |u1| && (u1[1] == 'o' || u1[1] == 'n');
    assert u2 != [] ==> 1 < |u2| && (u2[1] == 'o' || u2[1] == 'n');
    SegmentCancel(e1, e2, ExtraShotToken, 0, u1, u2);
    assert t1 != [] ==> 1 < |t1| && t1[1] == 'n';
    assert t2 != [] ==> 1 < |t2| && t2[1] == 'n';
    SegmentCancel(o1, o2, OatMilkToken, 0, t1, t2);
    // "no-sugar" and "no-foam" first differ at their fourth letter
    SegmentCancel(s1, s2, NoSugarToken, 3, f1s, f2s);
  }

  /** With the same item and the same trimmed notes, the key tells the
      customizations apart exactly: equal keys if and only if equal size and flags. */
  lemma KeySeparatesOptions(item: MenuItem, a: Selection, b: Selection)
    requires Trim(a.notes) == Trim(b.notes)
    ensures Key(item, a) == Key(item, b) <==>
            a.size == b.size && a.extraShot == b.extraShot && a.oatMilk == b.oatMilk &&
            a.noSugar == b.noSugar && a.noFoam == b.noFoam
  {
    if Key(item, a) == Key(item, b) {
      if a.size != b.size {
        SizeSeparatesKeys(item, a, b);
      }
      KeyShape(item, a);
      KeyShape(item, b);
      var fa := FlagSegments(a.extraShot, a.oatMilk, a.noSugar, a.noFoam);
      var fb := FlagSegments(b.extraShot, b.oatMilk, b.noSugar, b.noFoam);
      var head := IdPrefix(item.id) + SizeTag(a.size);
      assert head + fa + NotesSegment(a.notes) == head + fb + NotesSegment(b.notes);
      CancelSuffix(head + fa, head + fb, NotesSegment(a.notes));
      CancelPrefix(head, fa, fb);
      FlagSegmentsInjective(a.extraShot, a.oatMilk, a.noSugar, a.noFoam,
                            b.extraShot, b.oatMilk, b.noSugar, b.noFoam);
    } else {
      if a.size == b.size && a.extraShot == b.extraShot && a.oatMilk == b.oatMilk &&
         a.noSugar == b.noSugar && a.noFoam == b.noFoam {
        KeyDeterministic(item, a, b);
      }
    }
  }

  /** The key is not injective: notes that read "no-foam" with the flag off give
      the key of the flag on with no notes. */
  lemma NotesCanMimicFlag(item: MenuItem, a: Selection)
    requires !a.noFoam && Trim(a.notes) == NoFoamToken
    ensures a != a.(noFoam := true, notes := "")
    ensures Key(item, a) == Key(item, a.(noFoam := true, notes := ""))
  {
    var b := a.(noFoam := true, notes := "");
    var head := IdPrefix(item.id) + SizeTag(a.size);
    var e, o, s := Segment(a.extraShot, ExtraShotToken), Segment(a.oatMilk, OatMilkToken), Segment(a.noSugar, NoSugarToken);
    var foam := Segment(true, NoFoamToken);
    assert Key(item, a) == head + (e + (o + (s + ""))) + foam by {
      KeyShape(item, a);
      assert NotesSegment(a.notes) == foam;
    }
    assert Key(item, b) == head + (e + (o + (s + foam))) + "" by {
      KeyShape(item, b);
      assert Trim("") == "";
    }
    LastSegmentMoves(head, e, o, s, foam);
  }

  /** Moving the last segment of a key from the notes into the flags leaves the text as it is. */
  lemma LastSegmentMoves(head: string, e: string, o: string, s: string, f: string)
    ensures head + (e + (o + (s + ""))) + f == head + (e + (o + (s + f))) + ""
  {
    assert s + "" == s;
    ConcatAssoc(o, s, f);
    ConcatAssoc(e, o + s, f);
    ConcatAssoc(head, e + (o + s), f);
  }

  /** `"<name> (<size>)"`. */
  function DisplayName(name: string, size: Size): (r: string)
    ensures |r| == |name| + |SizeTag(size)| + 3
    ensures r[..|name|] == name && r[|name|..|name| + 2] == " (" && r[|r| - 1] == ')'
  {
    name + " (" + SizeTag(size) + ")"
  }

  /** The display name starts with the item's name and tells the sizes apart. */
  lemma DisplayNameSeparatesSizes(name: string, a: Size, b: Size)
    ensures DisplayName(name, a)[..|name|] == name
    ensures a != b ==> DisplayName(name, a) != DisplayName(name, b)
  {
    assert DisplayName(name, a)[|name| + 2] == SizeTag(a)[0];
    assert DisplayName(name, b)[|name| + 2] == SizeTag(b)[0];
  }

  /** `notes.trim() || undefined`: the trimmed notes, absent when they are empty. */
  function NormalizedNotes(notes: string): (r: Option<string>)
    ensures r == None <==> AllWhitespace(notes)
    ensures r.Some? ==> r.value == Trim(notes) && r.value != []
  {
    TrimEmptyIffBlank(notes);
    var t := Trim(notes);
    if t == [] then None else Some(t)
  }

  /** The line handed to the cart store by "Add to Cart", or nothing when the
      quantity is below one. */
  function CartLine(item: MenuItem, sel: Selection): (r: Option<LineItem>)
    ensures r.Some? <==> sel.quantity >= 1
    ensures r.Some? ==> r.value.id == Key(item, sel) && r.value.itemId == item.id
    ensures r.Some? ==> r.value.name == DisplayName(item.name, sel.size)
    ensures r.Some? ==> r.value.basePrice == item.basePrice && r.value.quantity == sel.quantity
    ensures r.Some? ==> r.value.finalLinePrice == UnitPrice(item, sel) * sel.quantity
    ensures r.Some? ==> r.value.notes == NormalizedNotes(sel.notes)
  {
    if sel.quantity < 1 then None
    else Some(LineItem(
      id := Key(item, sel),
      itemId := item.id,
      name := DisplayName(item.name, sel.size),
      basePrice := item.basePrice,
      quantity := sel.quantity,
      finalLinePrice := LinePrice(item, sel),
      notes := NormalizedNotes(sel.notes)))
  }

  /** Multiplying by a non-negative quantity keeps the order of two prices. */
  lemma {:induction false} MulMonotone(x: int, y: int, q: nat)
    requires x <= y
    ensures x * q <= y * q
  {
    if q > 0 {
      MulMonotone(x, y, q - 1);
      assert x * q == x * (q - 1) + x;
      assert y * q == y * (q - 1) + y;
    }
  }

  /** A unit price between the base price and the base price plus both add-ons,
      times a quantity of at least one. */
  lemma PriceBounds(b: int, u: int, q: int)
    requires b <= u <= b + ExtraShotCents + OatMilkCents && q >= 1
    ensures b * q <= u * q <= (b + ExtraShotCents + OatMilkCents) * q
    ensures b >= 0 ==> u * q >= 0
  {
    MulMonotone(b, u, q);
    MulMonotone(u, b + ExtraShotCents + OatMilkCents, q);
    if b >= 0 {
      MulMonotone(0, b, q);
    }
  }

  /** Every line the customizer produces keeps the line invariant: quantity at
      least one, line price equal to the unit price times quantity, between
      base price times quantity and (base price + both add-ons) times quantity,
      and not negative for a non-negative base price. */
  lemma CartLineInvariant(item: MenuItem, sel: Selection, line: LineItem)
    requires CartLine(item, sel) == Some(line)
    ensures line.quantity >= 1
    ensures line.finalLinePrice == UnitPrice(item, sel) * line.quantity
    ensures line.basePrice * line.quantity <= line.finalLinePrice
    ensures line.finalLinePrice <= (line.basePrice + ExtraShotCents + OatMilkCents) * line.quantity
    ensures line.basePrice >= 0 ==> line.finalLinePrice >= 0
  {
    PriceBounds(line.basePrice, UnitPrice(item, sel), line.quantity);
  }

  /** What `Number(value)` produced from the quantity field. */
  datatype NumericInput = NotANumber | Whole(n: int)

  /** `Math.max(1, Number(value) || 1)`: a whole number of at least one is kept;
      zero, a negative number or something that is not a number becomes one. */
  function ClampQuantity(input: NumericInput): (r: int)
    ensures r >= 1
    ensures input.Whole? && input.n >= 1 ==> r == input.n
    ensures !(input.Whole? && input.n >= 1) ==> r == 1
  {
    var v := if input.NotANumber? || input.n == 0 then 1 else input.n;
    if v < 1 then 1 else v
  }

  /** The worked example: a latte at 4.50, medium, with an extra shot, two of them. */
  lemma LatteExample(item: MenuItem, sel: Selection)
    requires item.id == "latte" && item.basePrice == 450
    requires sel == Selection(Medium, true, false, false, false, "", 2)
    ensures UnitPrice(item, sel) == 530 && LinePrice(item, sel) == 1060
    ensures Key(item, sel) == "latte|medium|extra-shot"
  {
    KeyShape(item, sel);
    assert Trim("") == "";
    assert FlagSegments(true, false, false, false) == "|extra-shot";
    assert NotesSegment("") == "";
  }

  /** The customizer's state cells, and the "Add to Cart" handler. */
  class ItemCustomizer {
    const item: MenuItem
    var size: Size
    var extraShot: bool
    var oatMilk: bool
    var noSugar: bool
    var noFoam: bool
    var notes: string
    var quantity: int

    function Current(): Selection
      reads this
    {
      Selection(size, extraShot, oatMilk, noSugar, noFoam, notes, quantity)
    }

    /** The defaults: medium, no options, no notes, one item. */
    constructor (item: MenuItem)
      ensures this.item == item
      ensures Current() == Selection(Medium, false, false, false, false, "", 1)
    {
      this.item := item;
      size := Medium;
      extraShot, oatMilk, noSugar, noFoam := false, false, false, false;
      notes := "";
      quantity := 1;
    }

    /** The quantity field's change handler. */
    method SetQuantity(input: NumericInput)
      modifies this`quantity
      ensures quantity == ClampQuantity(input) && quantity >= 1
    {
      quantity := ClampQuantity(input);
    }

    /** Builds the line for the current selection and resets the quantity to one;
        does nothing when the quantity is below one. The other selection cells
        are left as they are. */
    method AddToCart() returns (added: Option<LineItem>)
      modifies this`quantity
      ensures added == CartLine(item, old(Current()))
      ensures added.Some? ==> quantity == 1
      ensures added.None? ==> quantity == old(quantity)
    {
      added := CartLine(item, Current());
      if added.Some? {
        quantity := 1;
      }
    }
  }
}
