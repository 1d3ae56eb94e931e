/** The application context of `contexts/AppContext.jsx`: the value
    `AppProvider` hands to every component under it holds the settings and
    their loading and error flags, and nothing else. A component that
    destructures any other name from it reads `undefined`. */
module AppContext {

  /** The names the provided value defines. */
  const ProvidedKeys: seq<string> := ["settings", "settingsLoading", "settingsError"]

  /** The names the contact form and the mobile menu read from the
      application context. */
  const ConsumedKeys: seq<string> := [
    "isSubmittingContact", "submitContactForm",
    "menu", "isLoading", "isError", "isMenuOpen", "setIsMenuOpen",
    "activeSection", "scrollToSection"
  ]

  /** None of the names those components read is provided: each of them is
      `undefined` in the components. */
  lemma ConsumedKeysMissing()
    ensures forall k :: k in ConsumedKeys ==> k !in ProvidedKeys
  {
  }
}
