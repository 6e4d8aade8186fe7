/**
  The drawers' form state: a React state object updated by
  `{...prev, [name]: value}`, so a map from field name to value.
*/
module Forms {
  import opened Wrappers

  /** A form field's value: text, a switch, or a number input's number (possibly NaN). */
  datatype FormValue = Text(s: string) | Flag(b: bool) | Number(n: int) | NaN

  type Form = map<string, FormValue>

  /** What a change handler reads off `e.target`. */
  datatype InputEvent = InputEvent(name: string, value: string, checked: bool)

  function Get(form: Form, key: string): Option<FormValue>
  {
    if key in form then Some(form[key]) else None
  }

  /** JavaScript truthiness of a field, an absent field being undefined. */
  predicate Truthy(v: Option<FormValue>)
  {
    match v
    case None => false
    case Some(Text(s)) => s != ""
    case Some(Flag(b)) => b
    case Some(Number(n)) => n != 0
    case Some(NaN) => false
  }

  /** `v || 0` */
  function OrZero(v: Option<FormValue>): (r: FormValue)
    ensures Truthy(Some(r)) || r == Number(0)
    ensures Truthy(v) ==> Some(r) == v
    ensures !Truthy(v) ==> r == Number(0)
  {
    if Truthy(v) then v.value else Number(0)
  }

  /** `typeof v === 'number'` */
  predicate IsNumber(v: FormValue)
  {
    v.Number? || v.NaN?
  }

  /** The request body `{ a, b }` built from the fields named in `keys`; undefined ones are omitted. */
  function Pick(form: Form, keys: set<string>): (r: Form)
    ensures r.Keys == form.Keys * keys
    ensures forall k :: k in r ==> r[k] == form[k]
  {
    map k | k in form.Keys * keys :: form[k]
  }

  /** handleChange of the add drawers: the named field takes the input's value. */
  function ChangeText(form: Form, e: InputEvent): (r: Form)
    ensures r.Keys == form.Keys + {e.name}
    ensures r[e.name] == Text(e.value)
    ensures forall k :: k in form && k != e.name ==> r[k] == form[k]
  {
    form[e.name := Text(e.value)]
  }

  /** handleChange of the edit drawers: the `isHide` switch stores `checked`, any other field `value`. */
  function ChangeField(form: Form, e: InputEvent): (r: Form)
    ensures r.Keys == form.Keys + {e.name}
    ensures r[e.name] == if e.name == "isHide" then Flag(e.checked) else Text(e.value)
    ensures forall k :: k in form && k != e.name ==> r[k] == form[k]
  {
    form[e.name := if e.name == "isHide" then Flag(e.checked) else Text(e.value)]
  }

  /** The number-input branch: `price || 0`, every other field untouched. */
  function ChangePrice(form: Form, price: FormValue): (r: Form)
    requires IsNumber(price)
    ensures r.Keys == form.Keys + {"price"}
    ensures r["price"] == (if price == NaN || price == Number(0) then Number(0) else price)
    ensures forall k :: k in form && k != "price" ==> r[k] == form[k]
  {
    form["price" := OrZero(Some(price))]
  }

  /** `isVisible: !isHide` as sent with an edit. */
  function Visible(form: Form): (r: FormValue)
    ensures r.Flag? && (r.b <==> !Truthy(Get(form, "isHide")))
  {
    Flag(!Truthy(Get(form, "isHide")))
  }

  /** An edit's request body: the named fields as they are, plus `isVisible: !isHide`. */
  function VisibleBody(form: Form, keys: set<string>): (r: Form)
    ensures r.Keys == (form.Keys * keys) + {"isVisible"}
    ensures r["isVisible"] == Visible(form)
    ensures forall k :: k in r && k != "isVisible" ==> k in keys && r[k] == form[k]
  {
    Pick(form, keys)["isVisible" := Visible(form)]
  }
}
