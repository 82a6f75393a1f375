/**
 * The two per-user options the extension stores: `rambutanmode` (the flag) and
 * `rambutanmode-enabled-at` (epoch seconds of the last explicit enable).
 * Both read as 0 when the user never set them.
 */
module UserOptions {

  datatype StoredOptions = StoredOptions(flag: int, enabledAt: int)
  {
    /** PHP truthiness of the stored flag. */
    predicate FlagSet() { flag != 0 }

    /** PHP truthiness of the stored timestamp: 0 means "never enabled". */
    predicate HasTimestamp() { enabledAt != 0 }
  }

  /** What an option lookup yields for a user who never toggled the mode. */
  const NeverSet := StoredOptions(0, 0)
}
