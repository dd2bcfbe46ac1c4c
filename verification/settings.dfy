/** The merchant settings the provider reads through `getConfigValue`, and the
    abstract signing primitive it calls. */
module Settings {
  import opened Php

  /** One field per configuration key the provider reads; each is whatever the
      host's configuration storage returns: a string, or `null` when unset. */
  datatype Settings = Settings(
    username: Option<string>,               // "username"
    sharedSecret: Option<string>,           // "shared_secret"
    sandboxMode: Option<string>,            // "sandbox_mode"
    iframeCss: Option<string>,              // "iframe_css"
    iframeTokenization: Option<string>,     // "iframe_tokenization"
    customerSaveCreditCard: Option<string>  // "customer_save_credit_card"
  )

  /** `hash_hmac("md5", payload, key)`, taken as a parameter: the digest is a
      library call whose internals are not modelled. Arguments are (payload, key). */
  type Hmac = (string, string) -> string

  /** The key every signature is made with. A `null` secret is not rejected: it
      signs as the empty key. */
  function SigningKey(settings: Settings): string {
    Interp(settings.sharedSecret)
  }
}
