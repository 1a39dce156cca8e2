/** The value extractor for `java.util.Optional` (`OptionalValueExtractor`):
    it hands the value held by an optional to the cascading validator's
    receiver, or null when there is none. The receiver is modelled by the
    sequence of `value(nodeName, object)` calls it gets. */
module OptionalExtraction {
  import opened Wrappers

  /** A reference of static type `Optional`: null, an empty optional, or an
      optional holding a (non-null) value. */
  datatype OptionalRef<T> = NullRef | Empty | Present(value: T)

  /** One `value(nodeName, object)` call on the receiver; `None` stands for a
      null argument. */
  datatype ReceivedValue<T> = ReceivedValue(nodeName: Option<string>, value: Option<T>)

  /** The calls `extractValues` makes on the receiver, in order: exactly one,
      without a node name, carrying the optional's value, or null when the
      reference is null or the optional empty. */
  function ExtractValues<T>(original: OptionalRef<T>): (calls: seq<ReceivedValue<T>>)
    ensures |calls| == 1
    ensures calls[0].nodeName == None
    ensures calls[0].value.None? <==> original.NullRef? || original.Empty?
    ensures original.Present? ==> calls[0].value == Some(original.value)
  {
    [ReceivedValue(None, if original.Present? then Some(original.value) else None)]
  }

  /** `Optional.ofNullable`: the optional holding a value, or the empty one
      for null. */
  function OfNullable<T>(x: Option<T>): OptionalRef<T>
  {
    match x
    case None => Empty
    case Some(v) => Present(v)
  }

  /** `Optional.orElse` on a non-null optional. */
  function OrElse<T>(o: OptionalRef<T>, other: Option<T>): Option<T>
    requires !o.NullRef?
  {
    match o
    case Present(v) => Some(v)
    case Empty => other
  }

  /** Extraction inverts `ofNullable`: wrapping a possibly-null value and
      extracting it hands the receiver that same value. */
  lemma ExtractOfNullable<T>(x: Option<T>)
    ensures ExtractValues(OfNullable(x)) == [ReceivedValue(None, x)]
  {
  }

  /** On a non-null optional, the extracted value is `orElse(null)`; a null
      reference is treated like an empty optional. */
  lemma ExtractIsOrElseNull<T>(o: OptionalRef<T>)
    ensures !o.NullRef? ==> ExtractValues(o)[0].value == OrElse(o, None)
    ensures ExtractValues<T>(NullRef) == ExtractValues<T>(Empty)
  {
  }
}
