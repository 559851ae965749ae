/**
 * The booking form: its fields and defaults, the fixed set of payment
 * methods, and `handleSubmit`, which folds the house number into the
 * address and hands the order data (without id, status and timestamp)
 * to the storefront.
 */
module BookingForm {
  import opened Types

  datatype FormData = FormData(
    customerName: string,
    address: string,
    houseNumber: string,
    phone: string,
    timing: string,
    paymentMethod: string)

  /** The buttons the form offers for the payment method. */
  const PaymentMethods: seq<string> := ["bKash", "Nagad", "mCash", "Islami Bank"]

  /** The form as it opens: every text field empty, bKash chosen. */
  const InitialForm: FormData := FormData("", "", "", "", "", "bKash")

  predicate PaymentMethodOffered(form: FormData)
  {
    form.paymentMethod in PaymentMethods
  }

  /** The payment button at position `choice` was pressed. */
  function ChoosePaymentMethod(form: FormData, choice: nat): (r: FormData)
    requires choice < |PaymentMethods|
    ensures PaymentMethodOffered(r)
    ensures r.paymentMethod == PaymentMethods[choice]
    ensures r.(paymentMethod := form.paymentMethod) == form
  {
    form.(paymentMethod := PaymentMethods[choice])
  }

  /** The form opens on an offered method, and pressing buttons only ever moves between offered methods. */
  lemma PaymentMethodAlwaysOffered(choices: seq<nat>)
    requires forall k :: 0 <= k < |choices| ==> choices[k] < |PaymentMethods|
    ensures PaymentMethodOffered(ChooseAll(InitialForm, choices))
    ensures choices == [] ==> ChooseAll(InitialForm, choices).paymentMethod == "bKash"
  {
    if choices != [] {
      var last := |choices| - 1;
      assert ChooseAll(InitialForm, choices) == ChoosePaymentMethod(ChooseAll(InitialForm, choices[..last]), choices[last]);
    }
  }

  /** The form after the payment buttons in `choices` were pressed in turn. */
  function ChooseAll(form: FormData, choices: seq<nat>): FormData
    requires forall k :: 0 <= k < |choices| ==> choices[k] < |PaymentMethods|
  {
    if choices == [] then form
    else ChoosePaymentMethod(ChooseAll(form, choices[..|choices| - 1]), choices[|choices| - 1])
  }

  /** The fields marked `required`: the browser does not submit the form while one is empty. */
  predicate RequiredFilled(form: FormData)
  {
    form.customerName != "" && form.phone != "" && form.houseNumber != ""
      && form.timing != "" && form.address != ""
  }

  const HousePrefix: string := "বাসা নং: "
  const AddressSeparator: string := ", ঠিকানা: "

  /** The composite address: the house number segment, then the address segment. */
  function FullAddress(houseNumber: string, address: string): (r: string)
    ensures |r| == |HousePrefix| + |houseNumber| + |AddressSeparator| + |address|
    ensures r[..|HousePrefix|] == HousePrefix
    ensures r[|HousePrefix|..|HousePrefix| + |houseNumber|] == houseNumber
    ensures r[|HousePrefix| + |houseNumber|..|HousePrefix| + |houseNumber| + |AddressSeparator|] == AddressSeparator
    ensures r[|HousePrefix| + |houseNumber| + |AddressSeparator|..] == address
  {
    HousePrefix + houseNumber + AddressSeparator + address
  }

  /**
   * Both parts can be read back from the composite address as long as the
   * house number holds no comma: the first comma after the prefix ends it.
   */
  lemma FullAddressInjective(h1: string, a1: string, h2: string, a2: string)
    requires ',' !in h1 && ',' !in h2
    requires FullAddress(h1, a1) == FullAddress(h2, a2)
    ensures h1 == h2 && a1 == a2
  {
    var r := FullAddress(h1, a1);
    var p := |HousePrefix|;
    assert AddressSeparator[0] == ',';
    assert |h1| == |h2| by {
      if |h1| < |h2| {
        assert false;
      } else if |h2| < |h1| {
        assert false;
      }
    }
    assert h1 == r[p..p + |h1|] == h2;
  }

  /**
   * `handleSubmit`: the order data carries the cart and the total exactly
   * as passed in, the composite address, and the other fields verbatim.
   */
  function HandleSubmit(form: FormData, cart: seq<CartItem>, total: int): (d: OrderData)
    requires RequiredFilled(form)
    ensures d.items == cart && d.total == total
    ensures d.customerName == form.customerName && d.phone == form.phone
    ensures d.timing == form.timing && d.paymentMethod == form.paymentMethod
    ensures d.address == FullAddress(form.houseNumber, form.address)
  {
    OrderData(form.customerName, FullAddress(form.houseNumber, form.address), form.phone,
      cart, total, form.timing, form.paymentMethod)
  }
}
