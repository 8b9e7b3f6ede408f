/** Clamping of untrusted pin commands before they reach the serial link. */
module Validation {
  import opened Messages

  /** The largest value a command field may carry. */
  const MaxField := 255

  /** Clamps `value` into [0, 255]. */
  function CheckLimits(value: int): (r: int)
    ensures 0 <= r <= MaxField
    ensures value < 0 ==> r == 0
    ensures value > MaxField ==> r == MaxField
    ensures 0 <= value <= MaxField ==> r == value
  {
    if value < 0 then 0
    else if value > MaxField then MaxField
    else value
  }

  /** Distance between two integers. */
  function Dist(a: int, b: int): nat {
    if a < b then b - a else a - b
  }

  /** CheckLimits picks the point of [0, 255] nearest to its input. */
  lemma CheckLimitsIsNearest(value: int, w: int)
    requires 0 <= w <= MaxField
    ensures Dist(CheckLimits(value), value) <= Dist(w, value)
  {
  }

  /** CheckLimits never reorders two inputs. */
  lemma CheckLimitsMonotonic(a: int, b: int)
    requires a <= b
    ensures CheckLimits(a) <= CheckLimits(b)
  {
  }

  /** Clamping an already clamped value changes nothing. */
  lemma CheckLimitsIdempotent(value: int)
    ensures CheckLimits(CheckLimits(value)) == CheckLimits(value)
  {
  }

  /** A command that validation leaves as it is: the six clamped fields lie in
      [0, 255] and the velocity in [1, 255]. */
  predicate InRange(m: PinMessage) {
    && 0 <= m.active <= MaxField
    && 0 <= m.number <= MaxField
    && 0 <= m.isAnalog <= MaxField
    && 0 <= m.isOutput <= MaxField
    && 0 <= m.current <= MaxField
    && 0 <= m.target <= MaxField
    && 1 <= m.velocity <= MaxField
  }

  /** The validation block of the POST handler: the velocity is first raised
      to at least 1, then the seven numeric fields are clamped. */
  function Validate(m: PinMessage): (r: PinMessage)
    ensures InRange(r)
    ensures r.device == m.device && r.error == m.error
    // a field already in range keeps its value
    ensures 0 <= m.active <= MaxField ==> r.active == m.active
    ensures 0 <= m.number <= MaxField ==> r.number == m.number
    ensures 0 <= m.isAnalog <= MaxField ==> r.isAnalog == m.isAnalog
    ensures 0 <= m.isOutput <= MaxField ==> r.isOutput == m.isOutput
    ensures 0 <= m.current <= MaxField ==> r.current == m.current
    ensures 0 <= m.target <= MaxField ==> r.target == m.target
    ensures 1 <= m.velocity <= MaxField ==> r.velocity == m.velocity
    // a field out of range goes to the nearest bound
    ensures m.active < 0 ==> r.active == 0
    ensures m.active > MaxField ==> r.active == MaxField
    ensures m.number < 0 ==> r.number == 0
    ensures m.number > MaxField ==> r.number == MaxField
    ensures m.isAnalog < 0 ==> r.isAnalog == 0
    ensures m.isAnalog > MaxField ==> r.isAnalog == MaxField
    ensures m.isOutput < 0 ==> r.isOutput == 0
    ensures m.isOutput > MaxField ==> r.isOutput == MaxField
    ensures m.current < 0 ==> r.current == 0
    ensures m.current > MaxField ==> r.current == MaxField
    ensures m.target < 0 ==> r.target == 0
    ensures m.target > MaxField ==> r.target == MaxField
    ensures m.velocity < 1 ==> r.velocity == 1
    ensures m.velocity > MaxField ==> r.velocity == MaxField
  {
    var velocity := if m.velocity < 1 then 1 else m.velocity;
    m.(active := CheckLimits(m.active),
       number := CheckLimits(m.number),
       isAnalog := CheckLimits(m.isAnalog),
       isOutput := CheckLimits(m.isOutput),
       current := CheckLimits(m.current),
       target := CheckLimits(m.target),
       velocity := CheckLimits(velocity))
  }

  /** Validation changes a command exactly when the command is out of range. */
  lemma ValidateFixesExactlyInRange(m: PinMessage)
    ensures Validate(m) == m <==> InRange(m)
  {
  }

  /** Validating twice is validating once. */
  lemma ValidateIdempotent(m: PinMessage)
    ensures Validate(Validate(m)) == Validate(m)
  {
    ValidateFixesExactlyInRange(Validate(m));
  }

  /** The command {pin 5, active 1, current 300, target -10, velocity 0}
      reaches the wire as {pin 5, active 1, current 255, target 0, velocity 1}. */
  lemma ValidateClampsExample()
    ensures Validate(PinMessage("", 1, 5, 0, 0, 300, -10, 0, ""))
         == PinMessage("", 1, 5, 0, 0, 255, 0, 1, "")
  {
  }
}
