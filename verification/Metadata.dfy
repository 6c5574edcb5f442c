/** The metadata every stored document starts with, and the gate every read passes. */
module Metadata {
  import opened Prelude

  const FORMAT_VERSION: nat := 1

  datatype Header = Header(formatVersion: nat, kind: string, schema: string)

  datatype Incompatible =
    | WrongFormatVersion(expectedFormat: nat, observedFormat: nat)
    | WrongKind(expectedKind: string, observedKind: string)
    | WrongSchema(expectedSchema: string, observedSchema: string)

  function Validate(observed: Header, kind: string, schema: string): Option<Incompatible> {
    if observed.formatVersion != FORMAT_VERSION then
      Some(WrongFormatVersion(FORMAT_VERSION, observed.formatVersion))
    else if observed.kind != kind then
      Some(WrongKind(kind, observed.kind))
    else if observed.schema != schema then
      Some(WrongSchema(schema, observed.schema))
    else
      None
  }

  /** `reason` names the first field, in the order format, kind, schema, in which the stored header differs from the
      one asked for, with both values. */
  predicate FirstDifference(reason: Incompatible, stored: Header, want: Header) {
    match reason
    case WrongFormatVersion(expected, observed) =>
      expected == want.formatVersion && observed == stored.formatVersion && expected != observed
    case WrongKind(expected, observed) =>
      && stored.formatVersion == want.formatVersion
      && expected == want.kind && observed == stored.kind && expected != observed
    case WrongSchema(expected, observed) =>
      && stored.formatVersion == want.formatVersion && stored.kind == want.kind
      && expected == want.schema && observed == stored.schema && expected != observed
  }

  /** The gate lets through exactly the header asked for, and otherwise names the first difference and no other. */
  lemma {:induction false} ReasonIsFirstDifference(stored: Header, kind: string, schema: string)
    ensures var want := Header(FORMAT_VERSION, kind, schema);
            && (Validate(stored, kind, schema).None? <==> stored == want)
            && forall reason ::
                 Validate(stored, kind, schema) == Some(reason) <==> FirstDifference(reason, stored, want)
  {
  }
}
