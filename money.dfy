/** Monetary amounts. Parsing amount text, the amount's currency and its text
    rendering belong to foreign money libraries, so the amount type is kept
    abstract and every parser or renderer is a parameter of the code that
    uses it. */
module Money {
  import opened Outcomes

  /** A signed decimal value bound to one currency. */
  type Amount

  /** Reads amount text under a fixed number format and currency; `None` when
      the text is not an amount in that format. */
  type AmountParser = string -> Option<Amount>

  /** The amount's text, without currency symbol or code. */
  type AmountRenderer = Amount -> string
}
