/**
  The device key-value store the app writes through: a map from string keys
  to string values. Whether a call fails is decided by the environment, so
  every call takes the failure it is to meet (`None` for success) as input.
  Each call is one atomic step.
 */
module AsyncStorage {
  import opened Wrappers

  /** The error a failed store call rejects with. */
  datatype StoreError = StoreError(message: string)

  /** The result of a call that returns nothing on success. */
  datatype Outcome = Pass | Fail(error: StoreError)

  /** The result of `getItem`: the stored value or `null`, or a failure. */
  datatype ReadResult = Read(value: Option<string>) | ReadFailed(error: StoreError)

  class KeyValueStore {
    var items: map<string, string>

    constructor ()
      ensures items == map[]
    {
      items := map[];
    }

    /** `setItem(key, value)`: on success the key maps to the value, all other
        keys are untouched; on failure nothing changes. */
    method SetItem(key: string, value: string, fault: Option<StoreError>) returns (o: Outcome)
      modifies this
      ensures fault.None? ==> o == Pass && items == old(items)[key := value]
      ensures fault.Some? ==> o == Fail(fault.value) && items == old(items)
    {
      if fault.Some? {
        o := Fail(fault.value);
      } else {
        items := items[key := value];
        o := Pass;
      }
    }

    /** `getItem(key)`: the stored value, `null` when the key is absent. */
    method GetItem(key: string, fault: Option<StoreError>) returns (r: ReadResult)
      ensures fault.Some? ==> r == ReadFailed(fault.value)
      ensures fault.None? && key in items ==> r == Read(Some(items[key]))
      ensures fault.None? && key !in items ==> r == Read(None)
    {
      if fault.Some? {
        r := ReadFailed(fault.value);
      } else if key in items {
        r := Read(Some(items[key]));
      } else {
        r := Read(None);
      }
    }

    /** `removeItem(key)`: on success the key is absent, all other keys are
        untouched; on failure nothing changes. */
    method RemoveItem(key: string, fault: Option<StoreError>) returns (o: Outcome)
      modifies this
      ensures fault.None? ==> o == Pass && items == old(items) - {key}
      ensures fault.Some? ==> o == Fail(fault.value) && items == old(items)
    {
      if fault.Some? {
        o := Fail(fault.value);
      } else {
        items := items - {key};
        o := Pass;
      }
    }
  }
}
