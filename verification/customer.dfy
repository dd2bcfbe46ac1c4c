/** The customer-facing eligibility flags: whether the checkout may offer to
    save a card, and whether the signed-in customer already has a saved card of
    this gateway. */
module Customer {
  import opened Php
  import opened Settings

  /** The gateway's payment method code and its vault method code. Their values
      live in the module's helper class, Helper/Data.php, which is not part of
      this model; no property below depends on them. */
  const MethodCode: string
  const VaultMethodCode: string

  /** A customer entity as the session loads it; only its existence matters here. */
  datatype CustomerEntity = CustomerEntity(id: int)

  /** The current-customer session: the id is unset for a guest, and the entity
      lookup may come back empty even when the id is set. */
  datatype Session = Session(customerId: Option<int>, customer: Option<CustomerEntity>)

  /** A saved payment token, reduced to the one attribute the provider reads. */
  datatype PaymentToken = PaymentToken(paymentMethodCode: string)

  /** The host's `getVisibleAvailableTokens(customerId)`, taken as a parameter. */
  type TokenLookup = int -> seq<PaymentToken>

  /** Some token in the list was saved with `code`. */
  predicate HasTokenFor(tokens: seq<PaymentToken>, code: string) {
    exists i :: 0 <= i < |tokens| && tokens[i].paymentMethodCode == code
  }

  /** `canSaveCard`: a signed-in customer, and the card-saving setting truthy. */
  function CanSaveCard(settings: Settings, session: Session): (canSave: bool)
    ensures session.customerId.None? ==> !canSave
    ensures session.customerId.Some? ==> (canSave <==> Truthy(settings.customerSaveCreditCard))
  {
    session.customerId.Some? && Truthy(settings.customerSaveCreditCard)
  }

  /** `customerHasSavedCC`: false for a guest or when the customer entity is
      missing; otherwise scans the customer's tokens and stops at the first one
      saved with this gateway's method code. */
  method CustomerHasSavedCC(session: Session, tokensOf: TokenLookup) returns (hasSaved: bool)
    ensures hasSaved <==>
              (session.customerId.Some? && session.customer.Some?
               && HasTokenFor(tokensOf(session.customerId.value), MethodCode))
  {
    if session.customerId.None? {
      return false;
    }
    if session.customer.None? {
      return false;
    }
    var tokens := tokensOf(session.customerId.value);
    for i := 0 to |tokens|
      invariant forall j :: 0 <= j < i ==> tokens[j].paymentMethodCode != MethodCode
    {
      if tokens[i].paymentMethodCode == MethodCode {
        return true;
      }
    }
    return false;
  }
}
