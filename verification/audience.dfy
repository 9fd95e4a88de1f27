/** The user app's two display audiences (apps/user/src/app/user/audience.ts). */
module Audiences {
  import opened Wrappers

  /** `Audience`. */
  datatype Audience = Senior | Family

  /** The audience as the string the source uses for it. */
  function AudienceName(a: Audience): string {
    match a
    case Senior => "senior"
    case Family => "family"
  }

  /** `normalizeAudience(input)`, with `None` standing for `null` and
      `undefined`: only the exact string `family` selects the family view,
      and either audience's own string is read back as that audience. */
  function NormalizeAudience(input: Option<string>): (a: Audience)
    ensures a == Family <==> input == Some("family")
    ensures forall b :: input == Some(AudienceName(b)) ==> a == b
  {
    if input == Some("family") then Family else Senior
  }

  /** Normalising an already normalised audience changes nothing. */
  lemma NormalizeIdempotent(input: Option<string>)
    ensures var a := NormalizeAudience(input);
      NormalizeAudience(Some(AudienceName(a))) == a
  {
    var a := NormalizeAudience(input);
    assert Some(AudienceName(a)) == Some(AudienceName(a));
  }
}
