/**
 * The logger's arithmetic and filtering: the 32-bit string hash that picks a
 * node's colour, the colour index and hue derived from it, and the level
 * filter every logging call goes through.
 */
module Log {
  import opened Js
  import opened Seqs

  const TwoTo31: int := 0x8000_0000
  const TwoTo32: int := 0x1_0000_0000

  /** JavaScript's `x | 0`: the signed 32-bit integer congruent to `x`. */
  function ToInt32(x: int): (r: int)
    ensures -TwoTo31 <= r < TwoTo31
    ensures (x - r) % TwoTo32 == 0
  {
    var m := x % TwoTo32;
    if m >= TwoTo31 then m - TwoTo32 else m
  }

  /** JavaScript's `x >>> 0`: the unsigned 32-bit integer congruent to `x`. */
  function ToUint32(x: int): (r: int)
    ensures 0 <= r < TwoTo32
    ensures (x - r) % TwoTo32 == 0
  {
    x % TwoTo32
  }

  /** Two integers that differ by a multiple of 2^32 reduce to the same residue. */
  lemma SameResidue(x: int, y: int)
    requires (x - y) % TwoTo32 == 0
    ensures x % TwoTo32 == y % TwoTo32
  {
    var q := (x - y) / TwoTo32;
    assert x == y + q * TwoTo32;
    var qy := y / TwoTo32;
    assert y == qy * TwoTo32 + y % TwoTo32;
    assert x == (q + qy) * TwoTo32 + y % TwoTo32;
  }

  /** The signed intermediate `| 0` does not change what `>>> 0` returns. */
  lemma SignedIntermediateIsHarmless(x: int)
    ensures ToUint32(ToInt32(x)) == ToUint32(x)
  {
    SameResidue(ToInt32(x), x);
  }

  /** The base-31 polynomial of the code units of `s`, with no reduction. */
  function Polynomial(s: JsString): nat {
    if |s| == 0 then 0 else 31 * Polynomial(s[..|s| - 1]) + s[|s| - 1]
  }

  /** The value `hashString(s)` returns: the base-31 polynomial reduced modulo 2^32. */
  function Hash(s: JsString): (h: int)
    ensures 0 <= h < TwoTo32
  {
    Polynomial(s) % TwoTo32
  }

  lemma HashOfEmpty()
    ensures Hash([]) == 0
  {
  }

  /** Multiplying by 31 and adding a code unit respects congruence modulo 2^32. */
  lemma StepRespectsResidue(x: int, y: int, c: int)
    requires (x - y) % TwoTo32 == 0
    ensures (31 * x + c) % TwoTo32 == (31 * y + c) % TwoTo32
  {
    var q := (x - y) / TwoTo32;
    assert x - y == q * TwoTo32;
    assert (31 * x + c) - (31 * y + c) == (31 * q) * TwoTo32;
    SameResidue(31 * x + c, 31 * y + c);
  }

  /** The recurrence the hash loop follows, one code unit at a time. */
  lemma {:induction false} HashAppend(s: JsString, c: CodeUnit)
    ensures Hash(s + [c]) == (31 * Hash(s) + c) % TwoTo32
  {
    assert (s + [c])[..|s|] == s;
    assert Polynomial(s + [c]) == 31 * Polynomial(s) + c;
    assert (Polynomial(s) - Hash(s)) % TwoTo32 == 0 by {
      SameResidue(Polynomial(s), Hash(s));
    }
    StepRespectsResidue(Polynomial(s), Hash(s), c);
  }

  /**
   * `hashString` as written: a loop over the code units that keeps the hash
   * as a signed 32-bit integer (`| 0`) and returns it unsigned (`>>> 0`).
   */
  method HashString(str: JsString) returns (h: int)
    ensures h == Hash(str)
  {
    var hash := 0;
    for i := 0 to |str|
      invariant -TwoTo31 <= hash < TwoTo31
      invariant hash % TwoTo32 == Hash(str[..i])
    {
      assert str[..i + 1] == str[..i] + [str[i]];
      HashAppend(str[..i], str[i]);
      var next := ToInt32(hash * 31 + str[i]);
      SameResidue(next, hash * 31 + str[i]);
      StepRespectsResidue(hash, hash % TwoTo32, str[i]);
      hash := next;
    }
    assert str[..|str|] == str;
    h := ToUint32(hash);
  }

  /** The 256-colour palette index of a node's ANSI colour, `16 + hash % 216`. */
  function AnsiColorIndex(id: JsString): (index: int)
    ensures 16 <= index <= 231
  {
    16 + Hash(id) % 216
  }

  /** The hue of a node's CSS colour, `hash % 360`. */
  function CssHue(id: JsString): (hue: int)
    ensures 0 <= hue <= 359
  {
    Hash(id) % 360
  }

  /** A node's logger: the id it prints and the two colours derived from it. */
  datatype Logger = Logger(id: JsString, ansiColor: int, hue: int)

  /** `createLogger(id)`, without the console functions it wraps. */
  function CreateLogger(id: JsString): (logger: Logger)
    ensures logger.id == id
    ensures 16 <= logger.ansiColor <= 231 && 0 <= logger.hue <= 359
  {
    Logger(id, AnsiColorIndex(id), CssHue(id))
  }

  datatype Level = Debug | Info | Warn | Error

  const DebugText: JsString := [100, 101, 98, 117, 103]
  const InfoText: JsString := [105, 110, 102, 111]
  const WarnText: JsString := [119, 97, 114, 110]
  const ErrorText: JsString := [101, 114, 114, 111, 114]

  /** The list `['debug', 'info', 'warn', 'error']` that orders the levels. */
  const LevelTexts: seq<JsString> := [DebugText, InfoText, WarnText, ErrorText]

  /** The name a level is written with. */
  function LevelText(l: Level): JsString {
    match l
    case Debug => DebugText
    case Info => InfoText
    case Warn => WarnText
    case Error => ErrorText
  }

  /** The intended order of the levels, debug lowest. */
  function Severity(l: Level): nat {
    match l
    case Debug => 0
    case Info => 1
    case Warn => 2
    case Error => 3
  }

  /** `levels.indexOf(level)`: a level's position, or -1 for any other string. */
  function Rank(level: JsString): int {
    IndexOf(LevelTexts, level)
  }

  /** `shouldLog(level)` against the threshold `logLevel`. */
  predicate ShouldLog(level: JsString, threshold: JsString) {
    Rank(level) >= Rank(threshold)
  }

  lemma RankOfLevel(l: Level)
    ensures Rank(LevelText(l)) == Severity(l)
  {
    assert LevelTexts[0] == DebugText && LevelTexts[1] == InfoText;
    assert LevelTexts[2] == WarnText && LevelTexts[3] == ErrorText;
  }

  /** For the four named levels, filtering is exactly the severity order. */
  lemma ShouldLogIsSeverityOrder(level: Level, threshold: Level)
    ensures ShouldLog(LevelText(level), LevelText(threshold)) <==> Severity(level) >= Severity(threshold)
  {
    RankOfLevel(level);
    RankOfLevel(threshold);
  }

  /** At threshold `debug` every level logs; at `error` only `error` does. */
  lemma ThresholdExtremes(level: Level)
    ensures ShouldLog(LevelText(level), DebugText)
    ensures ShouldLog(LevelText(level), ErrorText) <==> level == Error
  {
    ShouldLogIsSeverityOrder(level, Debug);
    ShouldLogIsSeverityOrder(level, Error);
  }

  /**
   * A threshold that names no level ranks -1, below every level, so
   * everything logs; a call at an unknown level logs only then.
   */
  lemma UnknownNames(level: JsString, threshold: JsString)
    ensures threshold !in LevelTexts ==> ShouldLog(level, threshold)
    ensures level !in LevelTexts ==> (ShouldLog(level, threshold) <==> threshold !in LevelTexts)
  {
  }

  /**
   * The module-level `logLevel` of the logger. Loggers read it each time they
   * are called, so a change applies to loggers created before it.
   */
  class LogSettings {
    var logLevel: JsString

    constructor ()
      ensures logLevel == InfoText
    {
      logLevel := InfoText;
    }

    /**
     * `setLogLevel(level)`: any string is accepted, and from then on every
     * logger, including one created earlier, filters by the new level.
     */
    method SetLogLevel(level: JsString)
      modifies this
      ensures logLevel == level
      ensures forall l :: Enabled(l) <==> ShouldLog(l, level)
    {
      logLevel := level;
    }

    /** Whether a call at `level` is printed under the current setting. */
    predicate Enabled(level: JsString)
      reads this
    {
      ShouldLog(level, logLevel)
    }
  }
}
