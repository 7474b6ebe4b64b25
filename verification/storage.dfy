/** The browser's local storage, abstracted from JSON text to what a reader
    can make of each record, plus the `"cartUpdated"` event counter. */
module Storage {
  import opened Types
  import opened Lines

  /** One stored record, as a reader sees it:
      - `Missing`: no record, or an empty string (both falsy);
      - `Corrupt`: text that `JSON.parse` rejects;
      - `NonArray`: text that parses to a JSON value that is not an array;
      - `Valid(items)`: a JSON array, read back as `items`. */
  datatype Stored<T> = Missing | Corrupt | NonArray | Valid(items: seq<T>)

  /** The three storage keys the Next application uses, and how many
      `"cartUpdated"` events have been dispatched on `window`. The `"cart"`
      record and the `"fashlyCart"` record are unrelated stores. */
  datatype Browser = Browser(
    cart: Stored<Line>,
    fashlyCart: Stored<Line>,
    fashlyWishlist: Stored<Product>,
    cartUpdated: nat)

  /** Where the code runs: `inBrowser` is `typeof window !== "undefined"`;
      `writable` says whether `localStorage.setItem` succeeds (it throws when
      the quota is exceeded or storage is disabled). */
  datatype Env = Env(inBrowser: bool, writable: bool)

  /** Why an operation threw: `JSON.parse` failed, or an array method was
      applied to a parsed value that is not an array. */
  datatype Fault = ParseError | NotAnArray

  /** The outcome of an operation that may throw. */
  datatype Result<T> = Ok(value: T) | Throws(fault: Fault)
}
