/** Errors, and the validation of endpoint settings, on which the invariants of endpoint rows rest. */
module Validation {
  import opened Common
  import opened Queue
  import Body
  import Filter
  import Integrity

  datatype ConfigError = BadUrl | ShortSecret | TooFewAttempts | DelayTooShort | EmptyPattern | TrailingDot | ControlCharacter

  /** What a storage operation fails with. */
  datatype StoreError = InvalidConfig(error: ConfigError) | NotFound | InvalidState | Rejected

  /** Characters removed by Rust's `trim`. */
  predicate Whitespace(c: char) {
    var n := c as int;
    9 <= n <= 13 || n in {0x20, 0x85, 0xA0, 0x1680, 0x2028, 0x2029, 0x202F, 0x205F, 0x3000} || 0x2000 <= n <= 0x200A
  }

  predicate Control(c: char) {
    c as int < 0x20 || c as int == 0x7F
  }

  /** The first complaint about one pattern. */
  function PatternError(pattern: string): Option<ConfigError> {
    if forall i :: 0 <= i < |pattern| ==> Whitespace(pattern[i]) then Some(EmptyPattern)
    else if Filter.EndsWith(pattern, ".") && !Filter.EndsWith(pattern, ".*") then Some(TrailingDot)
    else if exists i :: 0 <= i < |pattern| && Control(pattern[i]) then Some(ControlCharacter)
    else None
  }

  /**
   * A pattern is accepted if it is not blank, does not end in a dot, and has no control
   * character; that it may end in a dot if it ends in ".*" is never of use.
   */
  lemma PatternAccepted(pattern: string)
    ensures PatternError(pattern).None?
       <==> SomeInk(pattern) && pattern[|pattern| - 1] != '.' && Clean(pattern)
  {
  }

  predicate SomeInk(pattern: string)
    ensures SomeInk(pattern) ==> pattern != ""
  {
    exists i :: 0 <= i < |pattern| && !Whitespace(pattern[i])
  }

  predicate Clean(pattern: string) {
    forall i :: 0 <= i < |pattern| ==> pattern[i] as int >= 0x20 && pattern[i] as int != 0x7F
  }

  predicate PatternsOk(patterns: seq<string>, k: nat)
    requires k <= |patterns|
  {
    forall j :: 0 <= j < k ==> PatternError(patterns[j]).None?
  }

  /** The first pattern that is complained about gets this complaint. */
  predicate FirstPatternError(patterns: seq<string>, error: ConfigError) {
    exists k :: 0 <= k < |patterns| && PatternError(patterns[k]) == Some(error) && PatternsOk(patterns, k)
  }

  predicate FieldsOk(config: NewEndpoint) {
    && |Body.Encode(config.signingSecret)| >= 16
    && Integrity.LimitsOk(config.maxAttempts, config.initialDelayMs)
    && (config.filter.Some? ==> PatternsOk(config.filter.value, |config.filter.value|))
  }

  /** What an update is checked for, given which URLs are accepted; filter patterns are not checked. */
  predicate UpdateOk(update: UpdateEndpoint, accepts: string -> bool) {
    && (update.url.Some? ==> accepts(update.url.value))
    && (update.signingSecret.Some? ==> |Body.Encode(update.signingSecret.value)| >= 16)
    && Integrity.LimitsOk(update.maxAttempts, update.initialDelayMs)
  }

  /** Accepts exactly the acceptable settings, and reports the first bad pattern as such. */
  method ValidateFields(config: NewEndpoint) returns (r: Result<(), ConfigError>)
    ensures r.Ok? <==> FieldsOk(config)
    ensures r != Err(BadUrl)
    ensures r == Err(ShortSecret) <==> |Body.Encode(config.signingSecret)| < 16
    ensures r.Err? && r.error != ShortSecret && !Integrity.LimitsOk(config.maxAttempts, config.initialDelayMs) ==>
      r.error == if config.maxAttempts.Some? && config.maxAttempts.value < 1 then TooFewAttempts else DelayTooShort
    ensures r.Err? && r.error != ShortSecret && Integrity.LimitsOk(config.maxAttempts, config.initialDelayMs) ==>
      config.filter.Some? && FirstPatternError(config.filter.value, r.error)
  {
    if |Body.Encode(config.signingSecret)| < 16 {
      return Err(ShortSecret);
    }
    if GetOr(config.maxAttempts, 10) < 1 {
      return Err(TooFewAttempts);
    }
    if config.initialDelayMs.Some? && config.initialDelayMs.value < 1 {
      return Err(DelayTooShort);
    }
    if config.filter.Some? {
      r := ValidatePatterns(config.filter.value);
    } else {
      return Ok(());
    }
  }

  /** Accepts exactly if there is nothing to complain about in any pattern, and reports the first complaint. */
  method ValidatePatterns(patterns: seq<string>) returns (r: Result<(), ConfigError>)
    ensures r.Ok? <==> PatternsOk(patterns, |patterns|)
    ensures r.Err? ==> FirstPatternError(patterns, r.error) && r.error in {EmptyPattern, TrailingDot, ControlCharacter}
  {
    for k := 0 to |patterns|
      invariant PatternsOk(patterns, k)
    {
      var complaint := PatternError(patterns[k]);
      if complaint.Some? {
        assert FirstPatternError(patterns, complaint.value);
        return Err(complaint.value);
      }
    }
    return Ok(());
  }

  /** The URL first, which is checked elsewhere, and then the fields. */
  method Validate(config: NewEndpoint, accepts: string -> bool) returns (r: Result<(), ConfigError>)
    ensures r.Ok? <==> accepts(config.url) && FieldsOk(config)
    ensures r == Err(BadUrl) <==> !accepts(config.url)
  {
    if !accepts(config.url) {
      return Err(BadUrl);
    }
    r := ValidateFields(config);
  }

  /** Accepts exactly the acceptable updates, and reports the first thing wrong with others. */
  method ValidateUpdate(update: UpdateEndpoint, accepts: string -> bool) returns (r: Result<(), ConfigError>)
    ensures r.Ok? <==> UpdateOk(update, accepts)
    ensures r == Err(BadUrl) <==> update.url.Some? && !accepts(update.url.value)
    ensures r.Err? && r.error != BadUrl ==>
      (r.error == ShortSecret <==> update.signingSecret.Some? && |Body.Encode(update.signingSecret.value)| < 16)
    ensures r.Err? && r.error != BadUrl && r.error != ShortSecret ==>
      r.error == if update.maxAttempts.Some? && update.maxAttempts.value < 1 then TooFewAttempts else DelayTooShort
  {
    if update.url.Some? && !accepts(update.url.value) {
      return Err(BadUrl);
    }
    if update.signingSecret.Some? && |Body.Encode(update.signingSecret.value)| < 16 {
      return Err(ShortSecret);
    }
    if update.maxAttempts.Some? && update.maxAttempts.value < 1 {
      return Err(TooFewAttempts);
    }
    if update.initialDelayMs.Some? && update.initialDelayMs.value < 1 {
      return Err(DelayTooShort);
    }
    return Ok(());
  }
}
