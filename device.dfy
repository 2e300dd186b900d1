/**
 * Readings of the device context that both the mesh manager and the
 * heartbeat manager derive from the sticky battery broadcast. The raw
 * extras (level, scale, status) are parameters; a missing extra reads -1.
 */
module Device {
  import opened JavaInt

  /** `BatteryManager.BATTERY_STATUS_CHARGING` and `BATTERY_STATUS_FULL`. */
  const BATTERY_STATUS_CHARGING: int := 2
  const BATTERY_STATUS_FULL: int := 5

  /** The battery percentage: `level * 100 / scale` in `Int` arithmetic, or 50 when either extra is unusable. */
  function BatteryLevel(level: Int32, scale: Int32): (pct: int)
    ensures IsInt32(pct)
    ensures !(level >= 0 && scale > 0) ==> pct == 50
  {
    if level >= 0 && scale > 0 then TruncDiv(Wrap32(level * 100), scale) else 50
  }

  /** Charging or full counts as charging. */
  predicate IsCharging(status: int)
  {
    status == BATTERY_STATUS_CHARGING || status == BATTERY_STATUS_FULL
  }

  /** For a level within the scale (and a scale a battery reports), the result is the floor percentage in 0..100. */
  lemma BatteryLevelIsPercentage(level: Int32, scale: Int32)
    requires 0 <= level <= scale <= 10_000 && scale > 0
    ensures 0 <= BatteryLevel(level, scale) <= 100
    ensures BatteryLevel(level, scale) == (level * 100) / scale
  {
    var n := level * 100;
    assert n < 0x8000_0000;
    assert Wrap32(n) == n;
    var q := TruncDiv(n, scale);
    DivBounds(n, scale);
    assert q == n / scale;
    assert n / scale <= 100 by {
      assert n <= 100 * scale;
      DivMonotone(n, 100 * scale, scale);
      MulDivCancel(100, scale);
    }
  }

  lemma MulDivCancel(k: int, d: int)
    requires k >= 0 && d > 0
    ensures (k * d) / d == k
  {
    var q := (k * d) / d;
    DivBounds(k * d, d);
    assert (k - q) * d == k * d - q * d;
    MulBelowFactor(k - q, d);
    MulBelowFactor(q - k, d);
  }

  lemma DivMonotone(a: int, b: int, d: int)
    requires 0 <= a <= b && d > 0
    ensures a / d <= b / d
  {
    DivBounds(a, d);
    DivBounds(b, d);
    var k := a / d - b / d;
    assert k * d < d;
    MulBelowFactor(k, d);
  }

  lemma MulBelowFactor(k: int, d: int)
    requires d > 0 && k * d < d
    ensures k <= 0
  {
    assert (k - 1) * d < 0;
  }
}
