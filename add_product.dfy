/**
 * app/products/addproducts/page.jsx: the add-product form, its per-field
 * update and the ordered validation of a submit.
 */
module AddProductPage {
  import opened Wrappers
  import opened Text

  /** The inputs of the form, by their `name` attribute. */
  datatype Field = Name | Category | Price | Stock | Status | Image

  datatype ProductForm = ProductForm(
    name: string,
    category: string,
    price: string,
    stock: string,
    status: string,
    image: string)

  /** The initial form, and the one a successful submit restores. */
  const EmptyForm: ProductForm := ProductForm("", "", "", "", "Active", "")

  /** `formData[field]`. */
  function Get(form: ProductForm, field: Field): string {
    match field
    case Name => form.name
    case Category => form.category
    case Price => form.price
    case Stock => form.stock
    case Status => form.status
    case Image => form.image
  }

  /** `{ ...prev, [name]: value }`: the named field takes the value. */
  function WithField(form: ProductForm, field: Field, value: string): (r: ProductForm)
    ensures Get(r, field) == value
    ensures forall other :: other != field ==> Get(r, other) == Get(form, other)
  {
    match field
    case Name => form.(name := value)
    case Category => form.(category := value)
    case Price => form.(price := value)
    case Stock => form.(stock := value)
    case Status => form.(status := value)
    case Image => form.(image := value)
  }

  /** Storing the value a field already holds changes nothing. */
  lemma WithFieldUnchanged(form: ProductForm, field: Field)
    ensures WithField(form, field, Get(form, field)) == form
  {
  }

  /** Some required field is empty; `status` is not checked. */
  predicate MissingField(form: ProductForm) {
    form.name == "" || form.category == "" || form.price == "" || form.stock == "" || form.image == ""
  }

  /** `isNaN(price) || Number(price) <= 0`. */
  predicate BadPrice(price: string) {
    ParseNum(price).NaN? || ParseNum(price).value <= 0.0
  }

  /** `isNaN(stock) || Number(stock) < 0`. */
  predicate BadStock(stock: string) {
    ParseNum(stock).NaN? || ParseNum(stock).value < 0.0
  }

  /** The checks of `handleSubmit`, in their order; None when the form is accepted. */
  function ValidateProduct(form: ProductForm): (r: Option<string>)
    ensures MissingField(form) ==> r == Some("Please fill all the fields")
    ensures !MissingField(form) && BadPrice(form.price) ==> r == Some("Price must be a valid positive number")
    ensures !MissingField(form) && !BadPrice(form.price) && BadStock(form.stock) ==>
              r == Some("Stock must be a valid number (0 or more)")
    ensures r == None ==>
              !MissingField(form) &&
              ParseNum(form.price).Finite? && ParseNum(form.price).value > 0.0 &&
              ParseNum(form.stock).Finite? && ParseNum(form.stock).value >= 0.0
    ensures r == None <==> !MissingField(form) && !BadPrice(form.price) && !BadStock(form.stock)
  {
    if MissingField(form) then Some("Please fill all the fields")
    else if BadPrice(form.price) then Some("Price must be a valid positive number")
    else if BadStock(form.stock) then Some("Stock must be a valid number (0 or more)")
    else None
  }

  /** A form whose price and stock are plain positive and non-negative integers passes. */
  lemma DigitFormAccepted(form: ProductForm)
    requires !MissingField(form)
    requires AllDigits(form.price) && AllDigits(form.stock) && DigitsValue(form.price) > 0
    ensures ValidateProduct(form) == None
  {
  }

  /** The state of the add-product screen. */
  class AddProductScreen {
    var formData: ProductForm
    var error: string

    constructor ()
      ensures formData == EmptyForm && error == ""
    {
      formData, error := EmptyForm, "";
    }

    /** `handleChange`: only the named field changes. */
    method HandleChange(field: Field, value: string)
      modifies this
      ensures formData == WithField(old(formData), field, value)
      ensures error == old(error)
    {
      formData := WithField(formData, field, value);
    }

    /**
     * `handleSubmit`: a refused form keeps its data and shows the first
     * failing check; an accepted one is reset and the error cleared.
     * `accepted` stands for the alert and the redirect that follow.
     */
    method HandleSubmit() returns (accepted: bool)
      modifies this
      ensures accepted <==> ValidateProduct(old(formData)) == None
      ensures !accepted ==> formData == old(formData) && error == ValidateProduct(old(formData)).value
      ensures accepted ==> formData == EmptyForm && error == ""
    {
      var refusal := ValidateProduct(formData);
      if refusal.Some? {
        error := refusal.value;
        return false;
      }
      formData := EmptyForm;
      error := "";
      accepted := true;
    }
  }
}
