/** The per-message-class settings the serializer works from. */
module Metadata {
  import opened Wrappers

  /**
   * An immutable record: the service and class names are always present; the key
   * subject, the value subject and the header provider's service id may be null.
   * Its accessors are the datatype's destructors, so each returns exactly what the
   * record was built with.
   */
  datatype MessageMetadata = MessageMetadata(
    serviceId: string,
    className: string,
    keySubject: Option<string>,
    valueSubject: Option<string>,
    headerProviderServiceId: Option<string>)
  {
    /** A class without a value subject can only be sent as a tombstone. */
    predicate AllowsTombstone() {
      valueSubject.None?
    }
  }
}
