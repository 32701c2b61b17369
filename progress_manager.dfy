/**
 * `ProgressManager`: a progress counter that only moves forward, is
 * clamped into `[minValue, maxValue]`, and is written as a small JSON text
 * to the progress file whenever a file name has been set. Counter values
 * are `unsigned int`s; the file itself is not modelled, only the text
 * written to it.
 */
module ProgressManager {
  import opened Jvmti
  import opened Text

  const UINT_MAX: int := 0xFFFF_FFFF

  type uint = x: int | 0 <= x <= UINT_MAX

  /**
   * The value `updateProgress` stores, or `None` when the new value is
   * below the current one and the call is ignored.
   */
  function Accepted(current: uint, minValue: uint, maxValue: uint, newValue: uint): (r: Option<uint>)
    ensures r.None? <==> newValue < current
  {
    if newValue < current then None
    else if newValue < minValue then Some(minValue)
    else if newValue > maxValue then Some(maxValue)
    else Some(newValue)
  }

  /**
   * With `minValue <= maxValue` and a current value in range, an accepted
   * value is the new value clamped into the range: it stays in range and
   * never below the current value.
   */
  lemma AcceptedClamps(current: uint, minValue: uint, maxValue: uint, newValue: uint)
    requires minValue <= maxValue && minValue <= current <= maxValue
    ensures var r := Accepted(current, minValue, maxValue, newValue);
            r.Some? ==>
              minValue <= r.value <= maxValue && current <= r.value
              && (newValue <= maxValue ==> r.value == newValue)
              && (maxValue < newValue ==> r.value == maxValue)
  {
  }

  /**
   * Once the current value is at least `minValue`, the clamp to
   * `minValue` is never taken: a value below `minValue` is below the
   * current value and is ignored.
   */
  lemma MinClampUnused(current: uint, minValue: uint, maxValue: uint, newValue: uint)
    requires minValue <= current
    ensures newValue < minValue ==> Accepted(current, minValue, maxValue, newValue).None?
  {
  }

  // The fixed pieces of the progress text: each key with the separator
  // before it, and the closing quote, newline and brace.
  const MIN_KEY: string := "{\n\t\"minValue\": "
  const MAX_KEY: string := ",\n\t\"maxValue\": "
  const CURRENT_KEY: string := ",\n\t\"currentValue\": "
  const MESSAGE_KEY: string := ",\n\t\"message\": \""
  const CLOSING: string := "\"\n}"

  /**
   * `writeProgressInfoInJSONFormat`: the three counters in decimal and the
   * message between quotes, not escaped.
   */
  function ProgressJson(minValue: nat, maxValue: nat, currentValue: nat, message: string): string {
    MIN_KEY + NatToString(minValue) + MAX_KEY + NatToString(maxValue) + CURRENT_KEY + NatToString(currentValue)
    + MESSAGE_KEY + message + CLOSING
  }

  /** What a reader of the progress file recovers. */
  datatype ProgressInfo = ProgressInfo(minValue: nat, maxValue: nat, currentValue: nat, message: string)

  /** Reads `key` followed by a decimal number. */
  function Field(key: string, s: string): Option<(nat, string)> {
    match Expect(key, s)
    case None => None
    case Some(t) => ParseNat(t)
  }

  /**
   * Reads the progress file's text back. The message is everything between
   * the opening quote and the closing quote, newline and brace at the end.
   */
  function ParseProgressJson(s: string): Option<ProgressInfo> {
    match Field(MIN_KEY, s)
    case None => None
    case Some((m, s1)) =>
      match Field(MAX_KEY, s1)
      case None => None
      case Some((x, s2)) =>
        match Field(CURRENT_KEY, s2)
        case None => None
        case Some((c, s3)) =>
          match Expect(MESSAGE_KEY, s3)
          case None => None
          case Some(t) =>
            if |t| >= |CLOSING| && t[|t| - |CLOSING|..] == CLOSING then
              Some(ProgressInfo(m, x, c, t[..|t| - |CLOSING|]))
            else None
  }

  lemma FieldOf(key: string, n: nat, rest: string)
    requires rest == [] || !IsDigit(rest[0])
    ensures Field(key, key + NatToString(n) + rest) == Some((n, rest))
  {
    assert key + NatToString(n) + rest == key + (NatToString(n) + rest);
    ExpectOf(key, NatToString(n) + rest);
    ParseNatOf(n, rest);
  }

  /** Nine pieces joined left to right, regrouped from the back. */
  lemma Regroup(k1: string, v1: string, k2: string, v2: string, k3: string, v3: string, k4: string, m: string, e: string)
    ensures k1 + v1 + k2 + v2 + k3 + v3 + k4 + m + e == k1 + v1 + (k2 + v2 + (k3 + v3 + (k4 + (m + e))))
  {
    var t := k4 + (m + e);
    assert k1 + v1 + k2 + v2 + k3 + v3 + k4 + m + e == k1 + v1 + k2 + v2 + k3 + v3 + t;
    var u := k3 + v3 + t;
    assert k1 + v1 + k2 + v2 + k3 + v3 + t == k1 + v1 + k2 + v2 + u;
    assert k1 + v1 + k2 + v2 + u == k1 + v1 + (k2 + v2 + u);
  }

  /** The progress text regrouped from the back, the way a reader takes it apart. */
  lemma ProgressJsonShape(minValue: nat, maxValue: nat, currentValue: nat, message: string)
    ensures ProgressJson(minValue, maxValue, currentValue, message)
              == MIN_KEY + NatToString(minValue)
                 + (MAX_KEY + NatToString(maxValue)
                    + (CURRENT_KEY + NatToString(currentValue) + (MESSAGE_KEY + (message + CLOSING))))
  {
    Regroup(MIN_KEY, NatToString(minValue), MAX_KEY, NatToString(maxValue), CURRENT_KEY, NatToString(currentValue),
            MESSAGE_KEY, message, CLOSING);
  }

  /**
   * The progress text reads back as the counters and the message it was
   * written from, whatever the message holds. The message is copied
   * verbatim, so a message with a quote in it is not valid JSON.
   */
  lemma ProgressJsonRoundTrip(minValue: nat, maxValue: nat, currentValue: nat, message: string)
    ensures ParseProgressJson(ProgressJson(minValue, maxValue, currentValue, message))
              == Some(ProgressInfo(minValue, maxValue, currentValue, message))
  {
    var t := message + CLOSING;
    var tail := MESSAGE_KEY + t;
    var s3 := CURRENT_KEY + NatToString(currentValue) + tail;
    var s2 := MAX_KEY + NatToString(maxValue) + s3;
    ProgressJsonShape(minValue, maxValue, currentValue, message);
    assert s2[0] == ',' && s3[0] == ',' && tail[0] == ',';
    FieldOf(MIN_KEY, minValue, s2);
    FieldOf(MAX_KEY, maxValue, s3);
    FieldOf(CURRENT_KEY, currentValue, tail);
    ExpectOf(MESSAGE_KEY, t);
    assert t[|t| - |CLOSING|..] == CLOSING;
    assert t[..|t| - |CLOSING|] == message;
  }

  /** Default bounds of the constructor. */
  const DEFAULT_MAX_VALUE: uint := 100
  const DEFAULT_MIN_VALUE: uint := 0

  class ProgressManagerState {
    const maxValue: uint
    const minValue: uint
    var currentValue: uint
    var progressFileName: string

    /** The counter stays within the bounds. */
    predicate InRange()
      reads this
    {
      minValue <= currentValue <= maxValue
    }

    /** The constructor: the counter starts at `minValue` and no file name is set. */
    constructor(maxValue: uint, minValue: uint)
      ensures this.maxValue == maxValue && this.minValue == minValue
      ensures currentValue == minValue && progressFileName == []
    {
      this.maxValue := maxValue;
      this.minValue := minValue;
      currentValue := minValue;
      progressFileName := [];
    }

    method SetProgressFileName(newProgressFileName: string)
      modifies this
      ensures progressFileName == newProgressFileName && currentValue == old(currentValue)
    {
      progressFileName := newProgressFileName;
    }

    /** `writeProgressInfoInJSONFormat`: the text appended to the stream, piece by piece. */
    method WriteProgressInfoInJSONFormat(message: string) returns (text: string)
      ensures text == ProgressJson(minValue, maxValue, currentValue, message)
    {
      text := MIN_KEY;
      text := text + NatToString(minValue);
      text := text + MAX_KEY;
      text := text + NatToString(maxValue);
      text := text + CURRENT_KEY;
      text := text + NatToString(currentValue);
      text := text + MESSAGE_KEY;
      text := text + message;
      text := text + CLOSING;
    }

    /**
     * `updateProgress`: an ignored value changes nothing and writes
     * nothing; an accepted one becomes the current value, and the progress
     * text is written when a file name is set. `written` is that text.
     */
    method UpdateProgress(newValue: uint, message: string) returns (written: Option<string>)
      modifies this
      ensures progressFileName == old(progressFileName)
      ensures Accepted(old(currentValue), minValue, maxValue, newValue).None? ==>
                currentValue == old(currentValue) && written == None
      ensures Accepted(old(currentValue), minValue, maxValue, newValue).Some? ==>
                currentValue == Accepted(old(currentValue), minValue, maxValue, newValue).value
                && written == if progressFileName == [] then None
                              else Some(ProgressJson(minValue, maxValue, currentValue, message))
      ensures minValue <= maxValue && old(InRange()) ==> InRange() && old(currentValue) <= currentValue
    {
      var value := newValue;
      if value < currentValue {
        return None;
      } else if value < minValue {
        value := minValue;
      } else if value > maxValue {
        value := maxValue;
      }
      currentValue := value;
      written := None;
      if progressFileName != [] {
        var text := WriteProgressInfoInJSONFormat(message);
        written := Some(text);
      }
    }
  }
}
