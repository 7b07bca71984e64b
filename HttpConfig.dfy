/**
 * Reading a boolean switch of the HTTP transport from the environment: a
 * fixed set of spellings, after trimming and lower-casing, turns it on or
 * off, and anything else (or no variable) keeps the default. The
 * environment lookup is a parameter: `raw` is what `os.getenv` returns.
 */
module HttpConfig {
  import opened Wrappers
  import opened Text

  /** The spellings that mean true. */
  const TrueValues: set<string> := {"1", "true", "t", "yes", "y", "on"}
  /** The spellings that mean false. */
  const FalseValues: set<string> := {"0", "false", "f", "no", "n", "off"}

  /** The normalised value: trimmed, then lower-cased. */
  function Normalise(raw: string): string
  {
    Lower(Strip(raw))
  }

  /** `_get_bool_env(name, default)` on the variable's value. */
  function GetBoolEnv(raw: Option<string>, default: bool): bool
  {
    if raw.None? then default
    else
      var val := Normalise(raw.value);
      if val in TrueValues then true
      else if val in FalseValues then false
      else default
  }

  /**
   * A recognised spelling decides the value whatever the default; the
   * default is kept exactly when the variable is missing or its value is
   * not one of the twelve spellings.
   */
  lemma GetBoolEnvCases(raw: Option<string>, default: bool)
    ensures raw.Some? && Normalise(raw.value) in TrueValues ==> GetBoolEnv(raw, default)
    ensures raw.Some? && Normalise(raw.value) in FalseValues ==> !GetBoolEnv(raw, default)
    ensures GetBoolEnv(raw, default) == GetBoolEnv(raw, !default) <==>
              raw.Some? && Normalise(raw.value) in TrueValues + FalseValues
  {
  }

  /** No spelling means both: the two sets are disjoint. */
  lemma SpellingsDisjoint()
    ensures TrueValues * FalseValues == {}
  {
    forall v | v in TrueValues
      ensures v !in FalseValues
    {
      assert |v| <= 4;
      if |v| == 1 {
        assert v == "1" || v == "t" || v == "y";
      }
    }
  }

  /**
   * Normalising is idempotent, so a value that is already normalised reads
   * the same, and case and surrounding spaces never change the answer.
   */
  lemma NormaliseIdempotent(raw: string)
    ensures Normalise(Normalise(raw)) == Normalise(raw)
  {
    var t := Strip(raw);
    TrimStartLower(t);
    TrimEndLower(TrimStart(t, IsSpace));
    StripIdempotent(raw);
    LowerIdempotent(t);
  }

  /** The answer depends only on the normalised value. */
  lemma OnlyNormalisedMatters(raw: string, default: bool)
    ensures GetBoolEnv(Some(raw), default) == GetBoolEnv(Some(Normalise(raw)), default)
  {
    NormaliseIdempotent(raw);
  }
}
