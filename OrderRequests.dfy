/**
  The body of a place-order request and its validation rules:
  `table_number` and `order_number` required strings of at most 50 characters;
  `items` a required, non-empty list whose entries each carry a menu item id,
  a name, a quantity of at least 1 and a price of at least 0 (item notes
  optional); `notes` optional, at most 1000 characters; `total_amount`
  required, at least 0.

  A missing (or null) field is `None`. As in Laravel, `required` on a string
  also fails for a blank string, and a length limit counts characters.
 */
module OrderRequests {
  import opened Wrappers
  import opened Text
  import opened Records

  const MaxNumberLength := 50
  const MaxNotesLength := 1000

  datatype ItemInput = ItemInput(
    menuItemId: Option<int>,
    name: Option<string>,
    quantity: Option<int>,
    price: Option<int>,
    notes: Option<string>)

  datatype OrderRequest = OrderRequest(
    tableNumber: Option<string>,
    orderNumber: Option<string>,
    items: seq<ItemInput>,
    notes: Option<string>,
    totalAmount: Option<int>)

  /** The four rules checked on every item line. */
  datatype ItemRule = MenuItemIdRule | NameRule | QuantityRule | PriceRule

  /** The keys of the validation error bag returned with a 422; an item key
      names the rule and the line's index (`items.<k>.<field>`). */
  datatype Field =
    | TableNumberField
    | OrderNumberField
    | ItemsField
    | ItemField(rule: ItemRule, index: nat)
    | NotesField
    | TotalAmountField

  /** `required|string|max:50`. */
  predicate NumberFieldOk(v: Option<string>) {
    Present(v) && |v.value| <= MaxNumberLength
  }

  /** `nullable|string|max:1000`. */
  predicate NotesOk(v: Option<string>) {
    v.None? || |v.value| <= MaxNotesLength
  }

  predicate QuantityOk(v: Option<int>) {
    v.Some? && v.value >= 1
  }

  /** `required|numeric|min:0`. */
  predicate AmountOk(v: Option<int>) {
    v.Some? && v.value >= 0
  }

  /** One item rule on one line: `menu_item_id` required, `name` required,
      `quantity` at least 1, `price` at least 0. */
  predicate ItemRuleOk(rule: ItemRule, item: ItemInput) {
    match rule
    case MenuItemIdRule => item.menuItemId.Some?
    case NameRule => Present(item.name)
    case QuantityRule => QuantityOk(item.quantity)
    case PriceRule => AmountOk(item.price)
  }

  predicate ItemAcceptable(item: ItemInput) {
    && item.menuItemId.Some?
    && Present(item.name)
    && QuantityOk(item.quantity)
    && AmountOk(item.price)
  }

  /** Every validation rule of the request, stated directly. */
  predicate Acceptable(req: OrderRequest) {
    && NumberFieldOk(req.tableNumber)
    && NumberFieldOk(req.orderNumber)
    && |req.items| >= 1
    && (forall k :: 0 <= k < |req.items| ==> ItemAcceptable(req.items[k]))
    && NotesOk(req.notes)
    && AmountOk(req.totalAmount)
  }

  /** The error keys one item rule produces over the lines `items`, whose first
      line has index `first`, in line order. */
  function RuleErrors(rule: ItemRule, items: seq<ItemInput>, first: nat): (errs: seq<Field>)
    ensures forall f :: f in errs <==>
      f.ItemField? && f.rule == rule && first <= f.index < first + |items| && !ItemRuleOk(rule, items[f.index - first])
  {
    if items == [] then []
    else
      (if ItemRuleOk(rule, items[0]) then [] else [ItemField(rule, first)])
      + RuleErrors(rule, items[1..], first + 1)
  }

  /** True iff the rule behind error key `f` fails on `req`. */
  predicate Fails(req: OrderRequest, f: Field) {
    match f
    case TableNumberField => !NumberFieldOk(req.tableNumber)
    case OrderNumberField => !NumberFieldOk(req.orderNumber)
    case ItemsField => |req.items| == 0
    case ItemField(rule, k) => k < |req.items| && !ItemRuleOk(rule, req.items[k])
    case NotesField => !NotesOk(req.notes)
    case TotalAmountField => !AmountOk(req.totalAmount)
  }

  /** The error keys of all item lines: each rule in turn over every line. */
  function LineErrors(items: seq<ItemInput>): (errs: seq<Field>)
    ensures forall f :: f in errs <==> f.ItemField? && f.index < |items| && !ItemRuleOk(f.rule, items[f.index])
  {
    RuleErrors(MenuItemIdRule, items, 0) + RuleErrors(NameRule, items, 0)
      + RuleErrors(QuantityRule, items, 0) + RuleErrors(PriceRule, items, 0)
  }

  /** A single key when its check fails, nothing otherwise. */
  function ErrorIf(failed: bool, field: Field): (errs: seq<Field>)
    ensures forall f :: f in errs <==> failed && f == field
  {
    if failed then [field] else []
  }

  /** The error keys of the fields before the item lines. */
  function LeadingErrors(req: OrderRequest): (errs: seq<Field>)
    ensures forall f :: f in errs <==> (f.TableNumberField? || f.OrderNumberField? || f.ItemsField?) && Fails(req, f)
  {
    ErrorIf(!NumberFieldOk(req.tableNumber), TableNumberField)
    + ErrorIf(!NumberFieldOk(req.orderNumber), OrderNumberField)
    + ErrorIf(|req.items| == 0, ItemsField)
  }

  /** The error keys of the fields after the item lines. */
  function TrailingErrors(req: OrderRequest): (errs: seq<Field>)
    ensures forall f :: f in errs <==> (f.NotesField? || f.TotalAmountField?) && Fails(req, f)
  {
    ErrorIf(!NotesOk(req.notes), NotesField) + ErrorIf(!AmountOk(req.totalAmount), TotalAmountField)
  }

  /** The validator's error bag, in the order the rules are listed (a wildcard
      item rule expands to one check per line): each key is present exactly
      when its rule fails. */
  function FieldErrors(req: OrderRequest): (errs: seq<Field>)
    ensures forall f :: f in errs <==> Fails(req, f)
  {
    LeadingErrors(req) + LineErrors(req.items) + TrailingErrors(req)
  }

  /** The request passes validation exactly when the error bag is empty. */
  lemma FieldErrorsEmptyIffAcceptable(req: OrderRequest)
    ensures FieldErrors(req) == [] <==> Acceptable(req)
  {
    var errs := FieldErrors(req);
    if errs == [] {
      NothingFailsIsAcceptable(req);
    } else {
      SomethingFailsIsNotAcceptable(req, errs[0]);
    }
  }

  /** When no rule fails, every validation rule holds. */
  lemma NothingFailsIsAcceptable(req: OrderRequest)
    requires forall f :: !Fails(req, f)
    ensures Acceptable(req)
  {
    forall k | 0 <= k < |req.items| ensures ItemAcceptable(req.items[k]) {
      assert !Fails(req, ItemField(MenuItemIdRule, k));
      assert !Fails(req, ItemField(NameRule, k));
      assert !Fails(req, ItemField(QuantityRule, k));
      assert !Fails(req, ItemField(PriceRule, k));
    }
    assert !Fails(req, TableNumberField) && !Fails(req, OrderNumberField) && !Fails(req, ItemsField);
    assert !Fails(req, NotesField) && !Fails(req, TotalAmountField);
  }

  /** A failing rule makes the request unacceptable. */
  lemma SomethingFailsIsNotAcceptable(req: OrderRequest, f: Field)
    requires Fails(req, f)
    ensures !Acceptable(req)
  {
    if f.ItemField? {
      assert !ItemAcceptable(req.items[f.index]);
    }
  }

  /** The request entry a stored line was submitted as. */
  function AsInput(item: Item): ItemInput {
    ItemInput(Some(item.menuItemId), Some(item.name), Some(item.quantity as int), Some(item.price as int), item.notes)
  }

  /** The order line a validated item input is stored as: every submitted
      field is kept, so the line reads back as the entry. */
  function ToItem(input: ItemInput): (item: Item)
    requires ItemAcceptable(input)
    ensures AsInput(item) == input
    ensures item.quantity >= 1
  {
    Item(input.menuItemId.value, input.name.value, input.quantity.value as nat, input.price.value as nat, input.notes)
  }

  /** The order lines of a validated request: one per entry, in submission
      order, each reading back as its entry. */
  function ToItems(inputs: seq<ItemInput>): (items: seq<Item>)
    requires forall k :: 0 <= k < |inputs| ==> ItemAcceptable(inputs[k])
    ensures |items| == |inputs|
    ensures forall k :: 0 <= k < |inputs| ==> AsInput(items[k]) == inputs[k] && items[k].quantity >= 1
  {
    seq(|inputs|, k requires 0 <= k < |inputs| => ToItem(inputs[k]))
  }

  /** Storing the entry of a line gives the line back. */
  lemma ToItemOfAsInput(item: Item)
    requires item.quantity >= 1 && !IsBlank(item.name)
    ensures ItemAcceptable(AsInput(item))
    ensures ToItem(AsInput(item)) == item
  {
  }
}
