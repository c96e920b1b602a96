/** The execution stamp inside a plan document, as one bytes-to-bytes rewrite. */
module PlanPayload {
  import opened Common
  import opened PosixFile

  type Bytes = seq<byte>

  /** The value of meta.executed_at_utc. */
  datatype Stamp = Text(at: string) | NotAString

  /** A parsed plan: its stamp, when there is one, and everything else. */
  datatype Plan = Plan(stamp: Option<Stamp>, rest: string)

  datatype Parsed = Invalid | NoMetaObject | Document(plan: Plan)

  /** The JSON library: parsing, and printing with a final newline. */
  datatype Codec = Codec(parse: Bytes -> Parsed, dump: Plan -> Bytes)

  /** Printing loses nothing. */
  ghost predicate Faithful(codec: Codec) {
    forall p :: codec.dump(p) != [] && codec.parse(codec.dump(p)) == Document(p)
  }

  /** The plan with the given stamp; bytes that carry it already stay as they are. */
  function ExecutedAtPayload(codec: Codec, admitted: Bytes, at: string): Option<Bytes> {
    if admitted == [] then None
    else match codec.parse(admitted)
      case Document(plan) =>
        if plan.stamp == Some(NotAString) then None
        else if plan.stamp == Some(Text(at)) then Some(admitted)
        else Some(codec.dump(plan.(stamp := Some(Text(at)))))
      case _ => None
  }

  predicate Carries(codec: Codec, bytes: Bytes, at: string) {
    bytes != [] && codec.parse(bytes).Document? && codec.parse(bytes).plan.stamp == Some(Text(at))
  }

  /** The payload carries the stamp and nothing else has changed; stamping again does nothing. */
  lemma PayloadCarriesStamp(codec: Codec, admitted: Bytes, at: string)
    requires Faithful(codec) && ExecutedAtPayload(codec, admitted, at).Some?
    ensures var payload := ExecutedAtPayload(codec, admitted, at).value;
      && Carries(codec, payload, at)
      && codec.parse(payload).plan.rest == codec.parse(admitted).plan.rest
      && ExecutedAtPayload(codec, payload, at) == Some(payload)
  {
  }

  /** Stamping twice leaves the plan with the last stamp, as the JSON library prints it. */
  lemma LastStampWins(codec: Codec, admitted: Bytes, first: string, second: string)
    requires Faithful(codec) && first != second && ExecutedAtPayload(codec, admitted, first).Some?
    requires !Carries(codec, admitted, first)
    ensures ExecutedAtPayload(codec, ExecutedAtPayload(codec, admitted, first).value, second)
         == Some(codec.dump(codec.parse(admitted).plan.(stamp := Some(Text(second)))))
  {
    PayloadCarriesStamp(codec, admitted, first);
    var plan := codec.parse(admitted).plan;
    assert plan.(stamp := Some(Text(first))).(stamp := Some(Text(second))) == plan.(stamp := Some(Text(second)));
  }
}
