/** `getConfig`: the checkout configuration for the hosted-payment iframe,
    assembled from the URLs and the flags. The random shuffle and the HMAC
    primitive come in as parameters. */
module ConfigProvider {
  import opened Php
  import opened Settings
  import opened Nonce
  import opened Urls
  import opened Customer

  /** The `payment.pmntsGateway` block of the checkout configuration. */
  datatype GatewayConfig = GatewayConfig(
    iframeSrc: string,
    isIframeEnabled: bool,
    fraudFingerprintSrc: string,
    isSandbox: Option<string>,   // the raw setting, not coerced
    canSaveCard: bool,
    customerHasSavedCC: bool,
    ccVaultCode: string
  )

  /** `getIframeSrc`: draws the nonce from `shuffled`, the outcome of shuffling the pool. */
  function IframeSrcFromShuffle(settings: Settings, shuffled: string, hmac: Hmac): (url: string)
    requires IsPoolShuffle(shuffled)
    ensures exists nonce :: WellFormedNonce(nonce) && url == IframeSrc(settings, nonce, hmac)
  {
    NonceIsWellFormed(shuffled);
    IframeSrc(settings, NonceOf(shuffled), hmac)
  }

  method GetConfig(settings: Settings, session: Session, tokensOf: TokenLookup,
                   shuffled: string, hmac: Hmac) returns (config: GatewayConfig)
    requires IsPoolShuffle(shuffled)
    ensures exists nonce :: WellFormedNonce(nonce) && config.iframeSrc == IframeSrc(settings, nonce, hmac)
    ensures config.isIframeEnabled <==> Truthy(settings.iframeTokenization)
    ensures config.fraudFingerprintSrc == FraudFingerprintSource(settings)
    ensures config.isSandbox == settings.sandboxMode
    ensures config.canSaveCard <==> (session.customerId.Some? && Truthy(settings.customerSaveCreditCard))
    ensures config.customerHasSavedCC <==>
              (session.customerId.Some? && session.customer.Some?
               && HasTokenFor(tokensOf(session.customerId.value), MethodCode))
    ensures config.ccVaultCode == VaultMethodCode
  {
    var hasSaved := CustomerHasSavedCC(session, tokensOf);
    config := GatewayConfig(
      IframeSrcFromShuffle(settings, shuffled, hmac),
      Truthy(settings.iframeTokenization),
      FraudFingerprintSource(settings),
      settings.sandboxMode,
      CanSaveCard(settings, session),
      hasSaved,
      VaultMethodCode
    );
  }
}
