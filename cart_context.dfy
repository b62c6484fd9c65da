/** The cart engine of src/context/CartContext.jsx: an ordered list of cart
    lines keyed by `cartId`, one optional applied promocode, the guest and
    signed-in paths of every operation, and the totals derived from them.

    Each asynchronous operation is one atomic step; what the server answers
    is a parameter of the step. The "guestCartItems" entry of local storage
    is the field `guestCartItems`. */
module Cart {
  import opened JsValues

  /** A variant's `color` or `size` object: `{ name, value }`. */
  datatype VariantAttr = VariantAttr(name: Option<string>, value: Option<string>)

  /** The fields of a product that `addToCart` reads (`dbId` is `_id`). */
  datatype Product = Product(
    id: Option<string>, dbId: Option<string>,
    name: Option<string>, image: Option<string>,
    price: Option<real>, originalPrice: Option<real>, discountPercent: Option<real>)

  /** The fields of a variant that `addToCart` reads (`dbId` is `_id`). */
  datatype Variant = Variant(
    id: Option<string>, dbId: Option<string>, price: Option<real>, sku: Option<string>,
    color: Option<VariantAttr>, size: Option<VariantAttr>)

  datatype SelectedVariant = SelectedVariant(
    id: Option<string>, sku: Option<string>, color: Option<string>, size: Option<string>)

  /** One cart line as the engine holds it; `id` is the product's id. */
  datatype CartLine = CartLine(
    id: Option<string>, cartId: string,
    name: Option<string>, image: Option<string>,
    price: Option<real>, originalPrice: Option<real>, discount: real,
    quantity: int,
    selectedVariant: Option<SelectedVariant>)

  /** A promocode as the validation endpoint returns it. */
  datatype Promo = Promo(
    code: string, discountType: string, discountValue: real,
    minPurchase: Option<real>, maxDiscount: Option<real>)

  datatype Totals = Totals(subtotal: real, total: real, discountAmount: real)

  /** The request body a signed-in operation posts. */
  datatype CartRequest =
    | AddItem(productId: Option<string>, variantId: Option<string>, quantity: int)
    | RemoveItem(productId: Option<string>, variantId: Option<string>)
    | UpdateItem(productId: Option<string>, variantId: Option<string>, quantity: int)
    | ClearAll

  /** What the promocode validation endpoint answers: the body's `data`, or
      an error carrying the response's `message` and the error's own message. */
  datatype PromoReply =
    | Validated(promo: Option<Promo>)
    | Rejected(responseMessage: Option<string>, errorMessage: Option<string>)

  /** How `applyPromocode` ends: normally, or by throwing with a message. */
  datatype ApplyOutcome = Applied | Threw(message: string)

  /* ---------- Keys ---------- */

  /** `product.id || product._id` */
  function ProductKey(p: Product): Option<string> {
    OrElse(p.id, p.dbId)
  }

  /** `variant.id || variant._id` */
  function VariantKey(v: Variant): Option<string> {
    OrElse(v.id, v.dbId)
  }

  /** The line key: the product id alone, or `productId_variantId`. */
  function CartIdOf(p: Product, v: Option<Variant>): (cid: string)
    ensures v.None? ==> cid == Template(ProductKey(p))
    ensures v.Some? ==> cid == Template(ProductKey(p)) + "_" + Template(VariantKey(v.value))
  {
    match v
    case None => Template(ProductKey(p))
    case Some(w) => Template(ProductKey(p)) + "_" + Template(VariantKey(w))
  }

  predicate NoUnderscore(s: string) {
    forall i | 0 <= i < |s| :: s[i] != '_'
  }

  /** The text before the first underscore. */
  function BeforeUnderscore(s: string): string {
    if s == [] || s[0] == '_' then [] else [s[0]] + BeforeUnderscore(s[1..])
  }

  lemma {:induction false} BeforeUnderscoreOf(a: string, t: string)
    requires NoUnderscore(a)
    ensures BeforeUnderscore(a) == a && BeforeUnderscore(a + "_" + t) == a
  {
    if a != [] {
      assert (a + "_" + t)[1..] == a[1..] + "_" + t;
      BeforeUnderscoreOf(a[1..], t);
    }
  }

  /** While product ids contain no underscore, a `cartId` tells apart the
      product and whether and which variant was chosen. */
  lemma CartIdDistinguishesLines(p1: Product, v1: Option<Variant>, p2: Product, v2: Option<Variant>)
    requires NoUnderscore(Template(ProductKey(p1))) && NoUnderscore(Template(ProductKey(p2)))
    requires CartIdOf(p1, v1) == CartIdOf(p2, v2)
    ensures Template(ProductKey(p1)) == Template(ProductKey(p2))
    ensures v1.Some? <==> v2.Some?
    ensures v1.Some? ==> Template(VariantKey(v1.value)) == Template(VariantKey(v2.value))
  {
    var a, b := Template(ProductKey(p1)), Template(ProductKey(p2));
    var c := CartIdOf(p1, v1);
    BeforeUnderscoreOf(a, if v1.Some? then Template(VariantKey(v1.value)) else "");
    BeforeUnderscoreOf(b, if v2.Some? then Template(VariantKey(v2.value)) else "");
    assert a == b;
    if v1.Some? && v2.Some? {
      assert Template(VariantKey(v1.value)) == c[|a| + 1..];
    }
  }

  /* ---------- Lines ---------- */

  predicate HasLine(items: seq<CartLine>, cid: string) {
    exists i | 0 <= i < |items| :: items[i].cartId == cid
  }

  predicate UniqueCartIds(items: seq<CartLine>) {
    forall i, j | 0 <= i < j < |items| :: items[i].cartId != items[j].cartId
  }

  /** What every guest operation keeps: unique keys and quantities of at least 1. */
  predicate WellFormed(items: seq<CartLine>) {
    UniqueCartIds(items) && forall i | 0 <= i < |items| :: items[i].quantity >= 1
  }

  /** `items.find((item) => item.cartId === cid)`, as the index it stops at. */
  function FirstIndex(items: seq<CartLine>, cid: string): (k: nat)
    requires HasLine(items, cid)
    ensures k < |items| && items[k].cartId == cid
    ensures forall j | 0 <= j < k :: items[j].cartId != cid
  {
    if items[0].cartId == cid then 0
    else
      assert HasLine(items[1..], cid) by {
        var i :| 0 <= i < |items| && items[i].cartId == cid;
        assert items[1..][i - 1] == items[i];
      }
      1 + FirstIndex(items[1..], cid)
  }

  /** `{ ...item, quantity: item.quantity + 1 }` on every line with key `cid`. */
  function Bump(items: seq<CartLine>, cid: string): (r: seq<CartLine>)
    ensures |r| == |items|
    ensures forall k | 0 <= k < |items| ::
      r[k] == if items[k].cartId == cid then items[k].(quantity := items[k].quantity + 1) else items[k]
  {
    if items == [] then []
    else
      [if items[0].cartId == cid then items[0].(quantity := items[0].quantity + 1) else items[0]]
      + Bump(items[1..], cid)
  }

  /** `{ ...item, quantity: q }` on every line with key `cid`. */
  function SetQuantity(items: seq<CartLine>, cid: string, q: int): (r: seq<CartLine>)
    ensures |r| == |items|
    ensures forall k | 0 <= k < |items| ::
      r[k] == if items[k].cartId == cid then items[k].(quantity := q) else items[k]
  {
    if items == [] then []
    else
      [if items[0].cartId == cid then items[0].(quantity := q) else items[0]]
      + SetQuantity(items[1..], cid, q)
  }

  /** `items.filter((item) => item.cartId !== cid)` */
  function Without(items: seq<CartLine>, cid: string): (r: seq<CartLine>)
    ensures !HasLine(r, cid)
    ensures forall l :: l in r <==> l in items && l.cartId != cid
    ensures UniqueCartIds(items) ==> UniqueCartIds(r)
    ensures WellFormed(items) ==> WellFormed(r)
  {
    if items == [] then []
    else if items[0].cartId == cid then Without(items[1..], cid)
    else
      var rest := Without(items[1..], cid);
      assert forall l | l in rest :: l in items[1..];
      [items[0]] + rest
  }

  /** The line `addToCart` appends for a guest. */
  function NewLine(p: Product, v: Option<Variant>): (l: CartLine)
    ensures l.cartId == CartIdOf(p, v) && l.quantity == 1
    ensures l.id == ProductKey(p)
  {
    CartLine(
      id := ProductKey(p),
      cartId := CartIdOf(p, v),
      name := p.name,
      image := p.image,
      price := if v.Some? then v.value.price else Some(p.price.GetOr(0.0)),
      originalPrice := p.originalPrice,
      discount := p.discountPercent.GetOr(0.0),
      quantity := 1,
      selectedVariant :=
        match v
        case None => None
        case Some(w) => Some(SelectedVariant(
          id := VariantKey(w),
          sku := if Present(w.sku) then w.sku else None,
          color := AttrLabel(w.color),
          size := AttrLabel(w.size))))
  }

  /** `attr?.name || attr?.value || null` */
  function AttrLabel(a: Option<VariantAttr>): Option<string> {
    match a
    case None => None
    case Some(x) => if Present(x.name) then x.name else if Present(x.value) then x.value else None
  }

  /** The guest branch of `addToCart`: raise the quantity of the line with
      this key, or append a new line. */
  function GuestAdd(items: seq<CartLine>, p: Product, v: Option<Variant>): (r: seq<CartLine>)
    ensures HasLine(r, CartIdOf(p, v))
    ensures forall c :: HasLine(r, c) <==> HasLine(items, c) || c == CartIdOf(p, v)
    ensures WellFormed(items) ==> WellFormed(r)
  {
    var cid := CartIdOf(p, v);
    if HasLine(items, cid) then
      var r := Bump(items, cid);
      assert forall c :: HasLine(r, c) <==> HasLine(items, c) by {
        forall c ensures HasLine(r, c) <==> HasLine(items, c) {
          if HasLine(r, c) {
            var i :| 0 <= i < |r| && r[i].cartId == c;
            assert items[i].cartId == c;
          }
          if HasLine(items, c) {
            var i :| 0 <= i < |items| && items[i].cartId == c;
            assert r[i].cartId == c;
          }
        }
      }
      r
    else
      var r := items + [NewLine(p, v)];
      assert r[|items|].cartId == cid;
      assert forall c :: HasLine(r, c) <==> HasLine(items, c) || c == cid by {
        forall c ensures HasLine(r, c) <==> HasLine(items, c) || c == cid {
          if HasLine(items, c) {
            var i :| 0 <= i < |items| && items[i].cartId == c;
            assert r[i].cartId == c;
          }
        }
      }
      r
  }

  /** An add of a key already in the cart raises that line's quantity by
      exactly one and leaves every other line and the length as they were. */
  lemma GuestAddExisting(items: seq<CartLine>, p: Product, v: Option<Variant>)
    requires UniqueCartIds(items) && HasLine(items, CartIdOf(p, v))
    ensures var r := GuestAdd(items, p, v);
      var k := FirstIndex(items, CartIdOf(p, v));
      && |r| == |items|
      && r[k] == items[k].(quantity := items[k].quantity + 1)
      && forall j | 0 <= j < |items| && j != k :: r[j] == items[j]
  {
  }

  /** An add of a new key appends one line with quantity 1 after the others. */
  lemma GuestAddNew(items: seq<CartLine>, p: Product, v: Option<Variant>)
    requires !HasLine(items, CartIdOf(p, v))
    ensures var r := GuestAdd(items, p, v);
      && |r| == |items| + 1
      && r[..|items|] == items
      && r[|items|] == NewLine(p, v) && r[|items|].quantity == 1
  {
  }

  /* ---------- Folds ---------- */

  /** `Number(item.price || 0) * item.quantity` */
  function LineAmount(l: CartLine): real {
    OrZero(l.price) * (l.quantity as real)
  }

  /** `getCartSubtotal`: the sum of the line amounts. */
  function Subtotal(items: seq<CartLine>): (r: real)
    ensures NonNegativePrices(items) && QuantitiesAtLeast(items, 0) ==> r >= 0.0
  {
    if items == [] then 0.0
    else
      assert forall i | 1 <= i < |items| :: items[1..][i - 1] == items[i];
      LineAmount(items[0]) + Subtotal(items[1..])
  }

  /** `getCartItemsCount`: the sum of the quantities. */
  function ItemsCount(items: seq<CartLine>): (n: int)
    ensures QuantitiesAtLeast(items, 0) ==> n >= 0
    ensures QuantitiesAtLeast(items, 1) ==> n >= |items|
  {
    if items == [] then 0
    else
      assert forall i | 1 <= i < |items| :: items[1..][i - 1] == items[i];
      items[0].quantity + ItemsCount(items[1..])
  }

  predicate NonNegativePrices(items: seq<CartLine>) {
    forall i | 0 <= i < |items| :: OrZero(items[i].price) >= 0.0
  }

  predicate QuantitiesAtLeast(items: seq<CartLine>, m: int) {
    forall i | 0 <= i < |items| :: items[i].quantity >= m
  }

  lemma {:induction false} SubtotalAppend(a: seq<CartLine>, b: seq<CartLine>)
    ensures Subtotal(a + b) == Subtotal(a) + Subtotal(b)
    ensures ItemsCount(a + b) == ItemsCount(a) + ItemsCount(b)
  {
    if a == [] {
      assert a + b == b;
    } else {
      assert (a + b)[1..] == a[1..] + b;
      SubtotalAppend(a[1..], b);
    }
  }

  /** A cart whose prices are not negative and whose quantities are at least
      one has a non-negative subtotal and at least one item per line. */
  lemma {:induction false} SubtotalNonNegative(items: seq<CartLine>)
    requires WellFormed(items) && NonNegativePrices(items)
    ensures Subtotal(items) >= 0.0
    ensures ItemsCount(items) >= |items|
  {
    if items != [] {
      assert WellFormed(items[1..]) && NonNegativePrices(items[1..]) by {
        forall i | 0 <= i < |items[1..]| ensures items[1..][i] == items[i + 1] { }
      }
      SubtotalNonNegative(items[1..]);
      assert items[0].quantity >= 1;
      assert LineAmount(items[0]) >= 0.0 by {
        assert OrZero(items[0].price) >= 0.0;
      }
    }
  }

  /** A line key that is not in the cart: raising or setting its quantity,
      or removing it, leaves the cart as it was. */
  lemma {:induction false} AbsentKeyUntouched(items: seq<CartLine>, cid: string, q: int)
    requires !HasLine(items, cid)
    ensures Bump(items, cid) == items && SetQuantity(items, cid, q) == items
    ensures Without(items, cid) == items
  {
    if items != [] {
      assert !HasLine(items[1..], cid) by {
        forall i | 0 <= i < |items[1..]| ensures items[1..][i] == items[i + 1] { }
      }
      AbsentKeyUntouched(items[1..], cid, q);
    }
  }

  /** Dropping the first line keeps the keys unique and, when that line had
      the key `cid`, leaves no line with it. */
  lemma TailKeys(items: seq<CartLine>, cid: string)
    requires items != [] && UniqueCartIds(items)
    ensures UniqueCartIds(items[1..])
    ensures items[0].cartId == cid ==> !HasLine(items[1..], cid)
    ensures items[0].cartId != cid && HasLine(items, cid) ==>
      HasLine(items[1..], cid) && FirstIndex(items, cid) == 1 + FirstIndex(items[1..], cid)
  {
    var rest := items[1..];
    forall i | 0 <= i < |rest| ensures rest[i] == items[i + 1] { }
    if items[0].cartId != cid && HasLine(items, cid) {
      var i :| 0 <= i < |items| && items[i].cartId == cid;
      assert rest[i - 1] == items[i];
    }
  }

  /** One more unit of a line adds its price to its amount. */
  lemma LineAmountBump(l: CartLine)
    ensures LineAmount(l.(quantity := l.quantity + 1)) == LineAmount(l) + OrZero(l.price)
  {
    var p, q := OrZero(l.price), l.quantity as real;
    calc {
      LineAmount(l.(quantity := l.quantity + 1));
      p * (q + 1.0);
      p * q + p;
    }
  }

  /** With unique keys, raising the quantity of a line in the cart adds
      exactly one item and that line's price to the totals. */
  lemma {:induction false} BumpTotals(items: seq<CartLine>, cid: string)
    requires UniqueCartIds(items) && HasLine(items, cid)
    ensures ItemsCount(Bump(items, cid)) == ItemsCount(items) + 1
    ensures Subtotal(Bump(items, cid)) == Subtotal(items) + OrZero(items[FirstIndex(items, cid)].price)
  {
    var head, rest := items[0], items[1..];
    var r := Bump(items, cid);
    TailKeys(items, cid);
    assert r == [r[0]] + Bump(rest, cid);
    if head.cartId == cid {
      AbsentKeyUntouched(rest, cid, 0);
      assert r[0] == head.(quantity := head.quantity + 1);
      LineAmountBump(head);
    } else {
      assert r[0] == head;
      BumpTotals(rest, cid);
    }
  }

  /** A guest add puts exactly one more item in the cart and adds the price
      of the line it raised or appended to the subtotal. */
  lemma GuestAddTotals(items: seq<CartLine>, p: Product, v: Option<Variant>)
    requires UniqueCartIds(items)
    ensures var cid := CartIdOf(p, v);
      var r := GuestAdd(items, p, v);
      var k := FirstIndex(r, cid);
      && ItemsCount(r) == ItemsCount(items) + 1
      && Subtotal(r) == Subtotal(items) + OrZero(r[k].price)
  {
    var cid := CartIdOf(p, v);
    if HasLine(items, cid) {
      BumpTotals(items, cid);
      assert FirstIndex(GuestAdd(items, p, v), cid) == FirstIndex(items, cid);
    } else {
      SubtotalAppend(items, [NewLine(p, v)]);
      assert FirstIndex(GuestAdd(items, p, v), cid) == |items|;
    }
  }

  /** With unique keys, removing a line takes exactly that one line out of
      the multiset of lines. */
  lemma {:induction false} WithoutMultiset(items: seq<CartLine>, cid: string)
    requires UniqueCartIds(items) && HasLine(items, cid)
    ensures multiset(Without(items, cid)) + multiset{items[FirstIndex(items, cid)]} == multiset(items)
  {
    var head, rest := items[0], items[1..];
    assert items == [head] + rest;
    TailKeys(items, cid);
    if head.cartId == cid {
      AbsentKeyUntouched(rest, cid, 0);
      assert Without(items, cid) == rest;
    } else {
      WithoutMultiset(rest, cid);
      var k := FirstIndex(rest, cid);
      assert items[FirstIndex(items, cid)] == rest[k];
      assert Without(items, cid) == [head] + Without(rest, cid);
      assert multiset(Without(items, cid)) == multiset{head} + multiset(Without(rest, cid));
    }
  }

  /** With unique keys, taking a line out and appending it again (the
      rollback of a failed signed-in remove) gives the same lines, with that
      line moved to the end. */
  lemma RemoveRollbackSameLines(items: seq<CartLine>, cid: string)
    requires UniqueCartIds(items) && HasLine(items, cid)
    ensures multiset(Without(items, cid) + [items[FirstIndex(items, cid)]]) == multiset(items)
  {
    WithoutMultiset(items, cid);
  }

  /** With unique keys, removing a line takes exactly its quantity and its
      amount off the totals. */
  lemma {:induction false} RemoveTotals(items: seq<CartLine>, cid: string)
    requires UniqueCartIds(items) && HasLine(items, cid)
    ensures ItemsCount(Without(items, cid)) == ItemsCount(items) - items[FirstIndex(items, cid)].quantity
    ensures Subtotal(Without(items, cid)) == Subtotal(items) - LineAmount(items[FirstIndex(items, cid)])
  {
    var head, rest := items[0], items[1..];
    TailKeys(items, cid);
    if head.cartId == cid {
      AbsentKeyUntouched(rest, cid, 0);
    } else {
      RemoveTotals(rest, cid);
      var r := Without(items, cid);
      assert r[0] == head && r[1..] == Without(rest, cid);
    }
  }

  /** Setting the quantity of a line changes only that line's quantity and
      keeps a well-formed cart well formed when the new quantity is at least 1. */
  lemma SetQuantityKeeps(items: seq<CartLine>, cid: string, q: int)
    requires WellFormed(items) && q >= 1
    ensures var r := SetQuantity(items, cid, q);
      && WellFormed(r)
      && forall c :: HasLine(r, c) <==> HasLine(items, c)
  {
    var r := SetQuantity(items, cid, q);
    assert forall i | 0 <= i < |r| :: r[i].cartId == items[i].cartId && r[i].quantity >= 1;
    assert UniqueCartIds(r) by {
      forall i, j | 0 <= i < j < |r| ensures r[i].cartId != r[j].cartId {
        assert r[i].cartId == items[i].cartId && r[j].cartId == items[j].cartId;
      }
    }
    forall c ensures HasLine(r, c) <==> HasLine(items, c) {
      if HasLine(r, c) {
        var i :| 0 <= i < |r| && r[i].cartId == c;
        assert items[i].cartId == c;
      }
      if HasLine(items, c) {
        var i :| 0 <= i < |items| && items[i].cartId == c;
        assert r[i].cartId == c;
      }
    }
  }

  /* ---------- Totals ---------- */

  function Max(a: real, b: real): real {
    if a >= b then a else b
  }

  /** `subtotal < appliedPromo.minPurchase` (false when there is none). */
  predicate BelowMinimum(subtotal: real, p: Promo) {
    p.minPurchase.Some? && subtotal < p.minPurchase.value
  }

  /** `appliedPromo.maxDiscount && ...`: a cap applies when it is truthy. */
  predicate HasCap(p: Promo) {
    p.maxDiscount.Some? && p.maxDiscount.value != 0.0
  }

  /** The discount of a promocode that still applies. */
  function Discount(subtotal: real, p: Promo): (r: real)
    ensures p.discountType == "Fixed" ==> r == p.discountValue
    ensures p.discountType == "Percentage" && HasCap(p) ==> r <= p.maxDiscount.value
    ensures p.discountType == "Percentage" && 0.0 <= subtotal && 0.0 <= p.discountValue <= 100.0 ==> r <= subtotal
    ensures p.discountType != "Fixed" && p.discountType != "Percentage" ==> r == 0.0
  {
    if p.discountType == "Fixed" then p.discountValue
    else if p.discountType == "Percentage" then
      var d := subtotal * (p.discountValue / 100.0);
      ShareAtMostSubtotal(subtotal, p.discountValue);
      assert 0.0 <= subtotal && 0.0 <= p.discountValue <= 100.0 ==> d <= subtotal;
      if HasCap(p) && d > p.maxDiscount.value then p.maxDiscount.value else d
    else 0.0
  }

  /** A share of at most 100 percent of a non-negative subtotal is at most
      the subtotal. */
  lemma ShareAtMostSubtotal(subtotal: real, percent: real)
    ensures 0.0 <= subtotal && 0.0 <= percent <= 100.0 ==> subtotal * (percent / 100.0) <= subtotal
  {
    if 0.0 <= subtotal && 0.0 <= percent <= 100.0 {
      var f := percent / 100.0;
      assert f <= 1.0;
      assert subtotal * (1.0 - f) >= 0.0;
    }
  }

  /** `getCartTotal`'s returned record. A promocode whose minimum is not met
      gives no discount and a total equal to the subtotal. */
  function CartTotals(subtotal: real, promo: Option<Promo>): (t: Totals)
    ensures t.subtotal == subtotal
    ensures promo.None? || BelowMinimum(subtotal, promo.value) ==> t.discountAmount == 0.0
    ensures promo.Some? && BelowMinimum(subtotal, promo.value) ==> t.total == subtotal
    ensures subtotal >= 0.0 ==> t.total >= 0.0
    ensures (promo.Some? ==> !BelowMinimum(subtotal, promo.value)) ==> t.total >= 0.0
    ensures promo.None? ==> t.total == Max(subtotal, 0.0)
  {
    match promo
    case None => Totals(subtotal, Max(subtotal, 0.0), 0.0)
    case Some(p) =>
      if BelowMinimum(subtotal, p) then Totals(subtotal, subtotal, 0.0)
      else
        var d := Discount(subtotal, p);
        Totals(subtotal, Max(subtotal - d, 0.0), d)
  }

  /** The applied promocode after `getCartTotal`: detached when its minimum
      purchase is not met. */
  function PromoAfterTotals(subtotal: real, promo: Option<Promo>): (r: Option<Promo>)
    ensures r.None? <==> promo.None? || BelowMinimum(subtotal, promo.value)
    ensures r.Some? ==> r == promo
  {
    if promo.Some? && BelowMinimum(subtotal, promo.value) then None else promo
  }

  /** Once the promocode applies, the total is the subtotal less the
      discount, never below zero, and never above the subtotal when the
      discount is not negative. */
  lemma TotalIsSubtotalLessDiscount(subtotal: real, p: Promo)
    requires !BelowMinimum(subtotal, p)
    ensures var t := CartTotals(subtotal, Some(p));
      && t.discountAmount == Discount(subtotal, p)
      && t.total == Max(subtotal - t.discountAmount, 0.0)
      && (t.discountAmount >= 0.0 && subtotal >= 0.0 ==> 0.0 <= t.total <= subtotal)
  {
  }

  /** A Fixed promocode takes off its value, whatever the subtotal. */
  lemma FixedDiscountIsFlat(s1: real, s2: real, p: Promo)
    requires p.discountType == "Fixed"
    ensures Discount(s1, p) == Discount(s2, p) == p.discountValue
  {
  }

  /** A Percentage promocode takes off that share of the subtotal, and no
      more than a truthy `maxDiscount`. */
  lemma PercentageDiscountIsCapped(subtotal: real, p: Promo)
    requires p.discountType == "Percentage"
    ensures var share := subtotal * p.discountValue / 100.0;
      && (HasCap(p) ==> Discount(subtotal, p) == (if share <= p.maxDiscount.value then share else p.maxDiscount.value))
      && (HasCap(p) ==> Discount(subtotal, p) <= p.maxDiscount.value)
      && (!HasCap(p) ==> Discount(subtotal, p) == share)
  {
    assert subtotal * (p.discountValue / 100.0) == subtotal * p.discountValue / 100.0;
  }

  /** A promocode of any other type takes nothing off. */
  lemma OtherTypeNoDiscount(subtotal: real, p: Promo)
    requires p.discountType != "Fixed" && p.discountType != "Percentage"
    ensures Discount(subtotal, p) == 0.0
    ensures !BelowMinimum(subtotal, p) ==> CartTotals(subtotal, Some(p)).total == Max(subtotal, 0.0)
  {
  }

  /** Computing the totals a second time, after the first computation may
      have detached the promocode, gives the same record (for a subtotal
      that is not negative). */
  lemma TotalsIdempotent(subtotal: real, promo: Option<Promo>)
    requires subtotal >= 0.0
    ensures CartTotals(subtotal, PromoAfterTotals(subtotal, promo)) == CartTotals(subtotal, promo)
    ensures PromoAfterTotals(subtotal, PromoAfterTotals(subtotal, promo)) == PromoAfterTotals(subtotal, promo)
  {
  }

  /** Below zero the recomputation is not stable: a subtotal of -10 under a
      promocode whose minimum is 100 first totals -10 (the early return
      passes the subtotal through), and once the promocode is detached the
      same subtotal totals 0 (`Math.max(total, 0)`). */
  lemma TotalsNotIdempotentBelowZero()
    ensures var promo := Some(Promo("MIN100", "Fixed", 5.0, Some(100.0), None));
      && CartTotals(-10.0, promo).total == -10.0
      && PromoAfterTotals(-10.0, promo) == None
      && CartTotals(-10.0, PromoAfterTotals(-10.0, promo)).total == 0.0
  {
  }

  /** subtotal 1000, Percentage 10 with minimum 500 and cap 80: discount 80, total 920. */
  lemma PercentageExample()
    ensures CartTotals(1000.0, Some(Promo("SAVE10", "Percentage", 10.0, Some(500.0), Some(80.0))))
         == Totals(1000.0, 920.0, 80.0)
  {
  }

  /** subtotal 300, Fixed 50 with minimum 500: detached, no discount, total 300. */
  lemma FixedBelowMinimumExample()
    ensures var p := Some(Promo("FLAT50", "Fixed", 50.0, Some(500.0), None));
      && CartTotals(300.0, p) == Totals(300.0, 300.0, 0.0)
      && PromoAfterTotals(300.0, p) == None
  {
  }

  /** `err.response?.data?.message || err.message || "Invalid code"` */
  function RejectionMessage(responseMessage: Option<string>, errorMessage: Option<string>): (m: string)
    ensures m != ""
    ensures Present(responseMessage) ==> m == responseMessage.value
    ensures !Present(responseMessage) && Present(errorMessage) ==> m == errorMessage.value
  {
    if Present(responseMessage) then responseMessage.value
    else if Present(errorMessage) then errorMessage.value
    else "Invalid code"
  }

  /** `itemToRemove.selectedVariant ? itemToRemove.selectedVariant.id : null` */
  function VariantIdOf(l: CartLine): Option<string> {
    if l.selectedVariant.Some? then l.selectedVariant.value.id else None
  }

  /* ---------- The engine ---------- */

  class CartStore {
    var cartItems: seq<CartLine>
    var appliedPromo: Option<Promo>
    var isAuthenticated: bool
    /** The "guestCartItems" entry of local storage (None: no entry). */
    var guestCartItems: Option<seq<CartLine>>

    /** What guest operations keep: the stored guest cart and, while signed
        out, the cart itself have unique keys and quantities of at least 1. */
    ghost predicate Valid()
      reads this
    {
      && (guestCartItems.Some? ==> WellFormed(guestCartItems.value))
      && (!isAuthenticated ==> WellFormed(cartItems))
    }

    /** The provider's first render: an empty cart and no promocode. */
    constructor (signedIn: bool, stored: Option<seq<CartLine>>)
      ensures cartItems == [] && appliedPromo == None
      ensures isAuthenticated == signedIn && guestCartItems == stored
      ensures Valid() <==> (stored.Some? ==> WellFormed(stored.value))
    {
      cartItems := [];
      appliedPromo := None;
      isAuthenticated := signedIn;
      guestCartItems := stored;
    }

    /** The sync effect on a change of the signed-in state, followed by the
        persist effect. Signed in: a non-empty stored guest cart is posted to
        the merge endpoint (its lines are returned as `mergeRequest`) and
        the server's list replaces the cart and the stored entry is removed;
        otherwise the server's cart is fetched. A failure of either request
        changes nothing. Signed out: the stored guest cart is loaded and the
        promocode dropped. `reply` is the answer to whichever request is made. */
    method Sync(signedIn: bool, reply: Reply<seq<CartLine>>) returns (mergeRequest: Option<seq<CartLine>>)
      modifies this
      ensures isAuthenticated == signedIn
      ensures var guest := old(guestCartItems).GetOr([]);
        mergeRequest == if signedIn && guest != [] then Some(guest) else None
      ensures signedIn && reply.Ok? ==>
        && cartItems == ListOf(reply.data)
        && guestCartItems == (if mergeRequest.Some? then None else old(guestCartItems))
        && appliedPromo == old(appliedPromo)
      ensures signedIn && reply.Fail? ==>
        && cartItems == old(cartItems) && guestCartItems == old(guestCartItems)
        && appliedPromo == old(appliedPromo)
      ensures !signedIn ==>
        && cartItems == old(guestCartItems).GetOr([])
        && appliedPromo == None && guestCartItems == Some(cartItems)
      ensures old(Valid()) ==> Valid()
    {
      isAuthenticated := signedIn;
      mergeRequest := None;
      if signedIn {
        var guest := guestCartItems.GetOr([]);
        if guest != [] {
          mergeRequest := Some(guest);
          if reply.Ok? {
            cartItems := ListOf(reply.data);
            guestCartItems := None;
          }
        } else if reply.Ok? {
          cartItems := ListOf(reply.data);
        }
      } else {
        cartItems := guestCartItems.GetOr([]);
        appliedPromo := None;
        guestCartItems := Some(cartItems);
      }
    }

    /** `addToCart(product, variant)`. Signed in: posts the add and takes the
        server's list, or changes nothing when the request fails. Guest:
        raises or appends the line locally and stores the guest cart. */
    method AddToCart(p: Product, v: Option<Variant>, reply: Reply<seq<CartLine>>)
      returns (sent: Option<CartRequest>)
      modifies this
      ensures isAuthenticated == old(isAuthenticated) && appliedPromo == old(appliedPromo)
      ensures isAuthenticated ==>
        && sent == Some(AddItem(ProductKey(p), if v.Some? then VariantKey(v.value) else None, 1))
        && cartItems == (if reply.Ok? then ListOf(reply.data) else old(cartItems))
        && guestCartItems == old(guestCartItems)
      ensures !isAuthenticated ==>
        && sent == None
        && cartItems == GuestAdd(old(cartItems), p, v)
        && guestCartItems == Some(cartItems)
      ensures old(Valid()) ==> Valid()
    {
      if isAuthenticated {
        sent := Some(AddItem(ProductKey(p), if v.Some? then VariantKey(v.value) else None, 1));
        if reply.Ok? {
          cartItems := ListOf(reply.data);
        }
      } else {
        sent := None;
        cartItems := GuestAdd(cartItems, p, v);
        guestCartItems := Some(cartItems);
      }
    }

    /** `removeFromCart(cartId)`. An unknown key changes nothing. Otherwise
        every line with the key is taken out; signed in, the server's list
        replaces the cart, or on failure the first removed line is appended
        at the end of what is left. */
    method RemoveFromCart(cid: string, reply: Reply<seq<CartLine>>) returns (sent: Option<CartRequest>)
      modifies this
      ensures isAuthenticated == old(isAuthenticated) && appliedPromo == old(appliedPromo)
      ensures !HasLine(old(cartItems), cid) ==>
        sent == None && cartItems == old(cartItems) && guestCartItems == old(guestCartItems)
      ensures HasLine(old(cartItems), cid) && isAuthenticated ==>
        var line := old(cartItems)[FirstIndex(old(cartItems), cid)];
        && sent == Some(RemoveItem(line.id, VariantIdOf(line)))
        && cartItems == (if reply.Ok? then ListOf(reply.data) else Without(old(cartItems), cid) + [line])
        && guestCartItems == old(guestCartItems)
      ensures HasLine(old(cartItems), cid) && !isAuthenticated ==>
        && sent == None
        && cartItems == Without(old(cartItems), cid)
        && guestCartItems == Some(cartItems)
      ensures old(Valid()) ==> Valid()
    {
      sent := None;
      if !HasLine(cartItems, cid) {
        return;
      }
      var line := cartItems[FirstIndex(cartItems, cid)];
      cartItems := Without(cartItems, cid);
      if isAuthenticated {
        sent := Some(RemoveItem(line.id, VariantIdOf(line)));
        if reply.Ok? {
          cartItems := ListOf(reply.data);
        } else {
          cartItems := cartItems + [line];
        }
      } else {
        guestCartItems := Some(cartItems);
      }
    }

    /** `updateQuantity(cartId, quantity)`. A quantity of 0 or less removes
        the line. Otherwise an unknown key changes nothing, and a known one
        gets the new quantity; signed in, the server's list replaces the
        cart, or on failure the cart before the update is restored. */
    method UpdateQuantity(cid: string, q: int, reply: Reply<seq<CartLine>>) returns (sent: Option<CartRequest>)
      modifies this
      ensures isAuthenticated == old(isAuthenticated) && appliedPromo == old(appliedPromo)
      ensures q <= 0 && HasLine(old(cartItems), cid) && !isAuthenticated ==>
        && sent == None
        && cartItems == Without(old(cartItems), cid)
        && guestCartItems == Some(cartItems)
      ensures q <= 0 && HasLine(old(cartItems), cid) && isAuthenticated ==>
        var line := old(cartItems)[FirstIndex(old(cartItems), cid)];
        && sent == Some(RemoveItem(line.id, VariantIdOf(line)))
        && cartItems == (if reply.Ok? then ListOf(reply.data) else Without(old(cartItems), cid) + [line])
        && guestCartItems == old(guestCartItems)
      ensures !HasLine(old(cartItems), cid) ==>
        sent == None && cartItems == old(cartItems) && guestCartItems == old(guestCartItems)
      ensures q > 0 && HasLine(old(cartItems), cid) && isAuthenticated ==>
        var line := old(cartItems)[FirstIndex(old(cartItems), cid)];
        && sent == Some(UpdateItem(line.id, VariantIdOf(line), q))
        && cartItems == (if reply.Ok? then ListOf(reply.data) else old(cartItems))
        && guestCartItems == old(guestCartItems)
      ensures q > 0 && HasLine(old(cartItems), cid) && !isAuthenticated ==>
        && sent == None
        && cartItems == SetQuantity(old(cartItems), cid, q)
        && guestCartItems == Some(cartItems)
      ensures old(Valid()) ==> Valid()
    {
      if q <= 0 {
        sent := RemoveFromCart(cid, reply);
        return;
      }
      sent := None;
      if !HasLine(cartItems, cid) {
        return;
      }
      var line := cartItems[FirstIndex(cartItems, cid)];
      var oldCart := cartItems;
      if !isAuthenticated && WellFormed(cartItems) {
        SetQuantityKeeps(cartItems, cid, q);
      }
      cartItems := SetQuantity(cartItems, cid, q);
      if isAuthenticated {
        sent := Some(UpdateItem(line.id, VariantIdOf(line), q));
        if reply.Ok? {
          cartItems := ListOf(reply.data);
        } else {
          cartItems := oldCart;
        }
      } else {
        guestCartItems := Some(cartItems);
      }
    }

    /** `clearCart()`: empties the cart and drops the promocode. Signed in,
        a failed clear request is followed by a fetch of the server's cart,
        whose answer (when there is one) replaces the empty cart. */
    method ClearCart(clearAccepted: bool, refetch: Reply<seq<CartLine>>) returns (sent: Option<CartRequest>)
      modifies this
      ensures isAuthenticated == old(isAuthenticated) && appliedPromo == None
      ensures isAuthenticated ==>
        && sent == Some(ClearAll)
        && cartItems == (if !clearAccepted && refetch.Ok? then ListOf(refetch.data) else [])
        && guestCartItems == old(guestCartItems)
      ensures !isAuthenticated ==> sent == None && cartItems == [] && guestCartItems == Some([])
      ensures old(Valid()) ==> Valid()
    {
      cartItems := [];
      appliedPromo := None;
      if isAuthenticated {
        sent := Some(ClearAll);
        if !clearAccepted && refetch.Ok? {
          cartItems := ListOf(refetch.data);
        }
      } else {
        sent := None;
        guestCartItems := Some(cartItems);
      }
    }

    /** `applyPromocode(code)`. Signed out: throws and changes nothing.
        Signed in: a validated promocode is applied; a rejection (or a
        validated answer without a promocode) drops the applied one and
        throws with the message the code builds. A validated answer without
        a promocode fails when the success toast reads its `code`: the catch
        block then sees a TypeError with no response, whose message
        `typeErrorMessage` is worded by the JavaScript engine. */
    method ApplyPromocode(code: string, reply: PromoReply, typeErrorMessage: Option<string>)
      returns (outcome: ApplyOutcome)
      modifies this
      ensures cartItems == old(cartItems) && guestCartItems == old(guestCartItems)
      ensures isAuthenticated == old(isAuthenticated)
      ensures !isAuthenticated ==> outcome == Threw("Not logged in") && appliedPromo == old(appliedPromo)
      ensures isAuthenticated && reply.Validated? && reply.promo.Some? ==>
        outcome == Applied && appliedPromo == reply.promo
      ensures isAuthenticated && reply.Validated? && reply.promo.None? ==>
        outcome == Threw(RejectionMessage(None, typeErrorMessage)) && appliedPromo == None
      ensures isAuthenticated && reply.Rejected? ==>
        outcome == Threw(RejectionMessage(reply.responseMessage, reply.errorMessage)) && appliedPromo == None
      ensures old(Valid()) ==> Valid()
    {
      if !isAuthenticated {
        return Threw("Not logged in");
      }
      match reply
      case Validated(promo) =>
        appliedPromo := promo;
        outcome := if promo.Some? then Applied else Threw(RejectionMessage(None, typeErrorMessage));
      case Rejected(responseMessage, errorMessage) =>
        appliedPromo := None;
        outcome := Threw(RejectionMessage(responseMessage, errorMessage));
    }

    /** `removePromocode()` */
    method RemovePromocode()
      modifies this
      ensures appliedPromo == None
      ensures cartItems == old(cartItems) && guestCartItems == old(guestCartItems)
      ensures isAuthenticated == old(isAuthenticated)
      ensures old(Valid()) ==> Valid()
    {
      appliedPromo := None;
    }

    /** `getCartTotal()`: the totals of the current cart, detaching the
        promocode when the subtotal is below its minimum purchase. */
    method GetCartTotal() returns (totals: Totals)
      modifies this
      ensures totals == CartTotals(Subtotal(cartItems), old(appliedPromo))
      ensures appliedPromo == PromoAfterTotals(Subtotal(cartItems), old(appliedPromo))
      ensures cartItems == old(cartItems) && guestCartItems == old(guestCartItems)
      ensures isAuthenticated == old(isAuthenticated)
      ensures old(Valid()) ==> Valid()
    {
      var subtotal := Subtotal(cartItems);
      totals := CartTotals(subtotal, appliedPromo);
      if appliedPromo.Some? && BelowMinimum(subtotal, appliedPromo.value) {
        appliedPromo := None;
      }
    }
  }
}
