/**
  Integer colour arithmetic for six channels: recipes from RGB, scaling to a peak, and the RGB
  display of a vector. Errors are stated as integer inequalities, without rounding.
 */
module Colour {
  import opened Lamp
  import opened Wrappers

  datatype Role = Unused | Red | Green | Blue | White

  type Roles = r: seq<Role> | |r| == 6 witness [Unused, Unused, Unused, Unused, Unused, Unused]

  datatype Rgb = Rgb(red: int, green: int, blue: int)

  predicate ValidRoles(roles: Roles) {
    Red in roles && Green in roles && Blue in roles
  }

  predicate ValidRgb(c: Rgb) {
    0 <= c.red <= 255 && 0 <= c.green <= 255 && 0 <= c.blue <= 255
  }

  predicate ValidIntensity(level: int) {
    0 <= level <= 100
  }

  function Max(a: int, b: int): int { if a < b then b else a }

  function RgbPeak(c: Rgb): int { Max(c.red, Max(c.green, c.blue)) }

  /** The largest level, and the channel that shows it. */
  function Peak(values: seq<int>): (peak: int)
    requires values != []
    ensures peak in values && forall v | v in values :: v <= peak
  {
    if |values| == 1 then values[0]
    else
      var rest := Peak(values[1..]);
      assert forall v | v in values :: v == values[0] || v in values[1..];
      Max(values[0], rest)
  }

  /** The nearest integer to a nonnegative ratio, ties upward. */
  function HalfUp(numerator: nat, denominator: nat): (r: nat)
    requires denominator > 0
    ensures 2 * numerator - denominator < 2 * denominator * r <= 2 * numerator + denominator
  {
    var n, d := 2 * numerator + denominator, 2 * denominator;
    assert n == d * (n / d) + n % d;
    n / d
  }

  lemma MulNonNegative(a: int, b: int)
    requires 0 <= a && 0 <= b
    ensures 0 <= a * b
  {
  }

  lemma MulStrict(f: int, a: int, b: int)
    requires f > 0 && a > b
    ensures f * a >= f * b + f
  {
    MulNonNegative(f, a - b - 1);
    assert f * a == f * b + f + f * (a - b - 1);
  }

  lemma AtMost(d: int, a: int, b: int)
    requires d > 0 && d * a < d * b + d
    ensures a <= b
  {
    if a > b { MulStrict(d, a, b); }
  }

  lemma HalfUpMonotone(a: nat, b: nat, d: nat)
    requires 0 < d && a <= b
    ensures HalfUp(a, d) <= HalfUp(b, d)
  {
    AtMost(2 * d, HalfUp(a, d), HalfUp(b, d));
  }

  lemma HalfUpExact(k: nat, d: nat)
    requires 0 < d
    ensures HalfUp(k * d, d) == k
  {
    var r := HalfUp(k * d, d);
    assert 2 * d * k == 2 * (k * d);
    AtMost(2 * d, r, k);
    AtMost(2 * d, k, r);
  }

  /** A common factor does not change the rounding. */
  lemma HalfUpCancel(n: nat, d: nat, f: nat)
    requires 0 < d && 0 < f
    ensures 0 < d * f && HalfUp(n * f, d * f) == HalfUp(n, d)
  {
    MulStrict(f, d, 0);
    var r, q := HalfUp(n * f, d * f), HalfUp(n, d);
    CommonFactor(n, d, f, r);
    Cancel(f, 2 * d * r, 2 * n + d);
    CancelStrict(f, 2 * n - d, 2 * d * r);
    AtMost(2 * d, r, q);
    AtMost(2 * d, q, r);
  }

  lemma CommonFactor(n: int, d: int, f: int, r: int)
    ensures f * (2 * d * r) == 2 * (d * f) * r
    ensures f * (2 * n + d) == 2 * (n * f) + d * f && f * (2 * n - d) == 2 * (n * f) - d * f
  {
    assert f * (2 * d * r) == (f * (2 * d)) * r;
    assert f * (2 * d) == 2 * (d * f);
  }

  lemma Cancel(f: int, a: int, b: int)
    requires f > 0 && f * a <= f * b
    ensures a <= b
  {
    if a > b { MulStrict(f, a, b); }
  }

  lemma CancelStrict(f: int, a: int, b: int)
    requires f > 0 && f * a < f * b
    ensures a < b
  {
    if a > b { MulStrict(f, a, b); }
  }

  /** `s` is `numerator / denominator` rounded to the nearest integer, ties upward. */
  predicate Nearest(numerator: int, denominator: int, s: int) {
    -denominator < 2 * (denominator * s - numerator) <= denominator
  }

  lemma NotAbove(d: int, n: int, s: int, r: int)
    requires d > 0 && 2 * (d * s) <= 2 * n + d && 2 * n - d < 2 * (d * r)
    ensures s <= r
  {
    if s > r { MulStrict(d, s, r); }
  }

  lemma HalfUpRange(n: nat, d: nat)
    requires d > 0
    ensures var r := HalfUp(n, d); 2 * n - d < 2 * (d * r) <= 2 * n + d
  {
    var r := HalfUp(n, d);
    assert 2 * d * r == 2 * (d * r);
  }

  lemma HalfUpIsNearest(n: nat, d: nat, s: int)
    requires d > 0
    ensures Nearest(n, d, s) <==> s == HalfUp(n, d)
  {
    HalfUpRange(n, d);
    if Nearest(n, d, s) {
      NotAbove(d, n, s, HalfUp(n, d));
      NotAbove(d, n, HalfUp(n, d), s);
    }
  }

  // ----- Scaling a vector to a peak -----

  datatype Scaled = Vector(values: Channels) | NoBasis | Invalid

  /** `scale_channels`. */
  function Scale(values: Channels, level: int): Scaled {
    if !ValidChannels(values) || !ValidIntensity(level) then Invalid
    else if level == 0 then Vector(ZERO)
    else if Peak(values) == 0 then NoBasis
    else Vector(seq(6, i requires 0 <= i < 6 => HalfUp(values[i] * level, Peak(values))))
  }

  lemma PeakAt(values: Channels) returns (i: nat)
    requires ValidChannels(values)
    ensures i < 6 && values[i] == Peak(values) && 0 <= Peak(values) <= 100
  {
    i :| 0 <= i < 6 && values[i] == Peak(values);
  }

  lemma PeakIs(values: Channels, peak: int)
    requires peak in values && forall i | 0 <= i < 6 :: values[i] <= peak
    ensures Peak(values) == peak
  {
    assert Peak(values) in values;
  }

  /** `s` is `v * level / peak` up to one half. */
  predicate HalfOff(peak: int, v: int, s: int, level: int) {
    -peak <= 2 * (peak * s - v * level) <= peak
  }

  /** `t` is `v * target / peak` up to `target / (2 level) + 1/2`. */
  predicate Drifted(peak: int, v: int, t: int, level: int, target: int) {
    -(peak * (target + level)) <= 2 * level * (peak * t - v * target) <= peak * (target + level)
  }

  lemma ProductBound(v: nat, level: nat, peak: nat)
    requires v <= peak
    ensures v * level <= level * peak
  {
  }

  /** One channel: within its share of the peak, and off by at most half a level. */
  lemma ScaledLevel(v: nat, level: nat, peak: nat)
    requires v <= peak && 0 < peak
    ensures HalfUp(v * level, peak) <= level && HalfOff(peak, v, HalfUp(v * level, peak), level)
    ensures v == peak ==> HalfUp(v * level, peak) == level
  {
    HalfUpExact(level, peak);
    ProductBound(v, level, peak);
    HalfUpMonotone(v * level, level * peak, peak);
    var s := HalfUp(v * level, peak);
    assert 2 * peak * s == 2 * (peak * s);
  }

  lemma ScaledOrder(v: nat, w: nat, level: nat, peak: nat)
    requires v <= w && 0 < peak
    ensures HalfUp(v * level, peak) <= HalfUp(w * level, peak)
  {
    ProductBound(v, level, w);
    HalfUpMonotone(v * level, w * level, peak);
  }

  /** The requested peak is hit exactly, no channel exceeds it or is off by more than half a level,
      and order (hence equality) of channels is kept. */
  lemma ScaleHitsPeak(values: Channels, level: int) returns (scaled: Channels)
    requires ValidChannels(values) && 0 < level <= 100 && Peak(values) > 0
    ensures Scale(values, level) == Vector(scaled)
    ensures ValidChannels(scaled) && Peak(scaled) == level
    ensures forall i | 0 <= i < 6 :: HalfOff(Peak(values), values[i], scaled[i], level)
    ensures forall i, j | 0 <= i < 6 && 0 <= j < 6 && values[i] <= values[j] :: scaled[i] <= scaled[j]
  {
    var peak := Peak(values);
    scaled := Scale(values, level).values;
    forall i | 0 <= i < 6
      ensures 0 <= scaled[i] <= level && HalfOff(peak, values[i], scaled[i], level)
              && (values[i] == peak ==> scaled[i] == level)
    {
      assert values[i] in values;
      ScaledLevel(values[i], level, peak);
    }
    forall i, j | 0 <= i < 6 && 0 <= j < 6 && values[i] <= values[j]
      ensures scaled[i] <= scaled[j]
    {
      ScaledOrder(values[i], values[j], level, peak);
    }
    var top := PeakAt(values);
    assert scaled[top] == level;
    PeakIs(scaled, level);
  }

  /** Scaling through `level` and then to `target` drifts from the exact ratio by at most
      `target / (2 level) + 1/2` in each channel. */
  lemma RescalingDrift(values: Channels, level: int, target: int) returns (first: Channels, second: Channels)
    requires ValidChannels(values) && Peak(values) > 0 && 0 < level <= 100 && 0 < target <= 100
    ensures Scale(values, level) == Vector(first) && Scale(first, target) == Vector(second)
    ensures forall i | 0 <= i < 6 :: Drifted(Peak(values), values[i], second[i], level, target)
  {
    first := ScaleHitsPeak(values, level);
    second := ScaleHitsPeak(first, target);
    forall i | 0 <= i < 6
      ensures Drifted(Peak(values), values[i], second[i], level, target)
    {
      DriftAt(Peak(values), values[i], first[i], second[i], level, target);
    }
  }

  lemma DriftAt(peak: int, v: int, s: int, t: int, level: int, target: int)
    requires peak > 0 && level > 0 && target > 0
    requires HalfOff(peak, v, s, level) && HalfOff(level, s, t, target)
    ensures Drifted(peak, v, t, level, target)
  {
    var x, y := 2 * (peak * s - v * level), 2 * (level * t - s * target);
    DriftSplit(peak, v, s, t, level, target);
    Bounded(peak, y, level);
    Bounded(target, x, peak);
    assert peak * (target + level) == peak * level + target * peak;
  }

  /** The drift is what each of the two roundings contributes. */
  lemma DriftSplit(peak: int, v: int, s: int, t: int, level: int, target: int)
    ensures 2 * level * (peak * t - v * target) ==
            peak * (2 * (level * t - s * target)) + target * (2 * (peak * s - v * level))
  {
    var p, q, o := level * (peak * t), level * (v * target), peak * (s * target);
    assert peak * (level * t) == p && target * (v * level) == q && target * (peak * s) == o by {
      Exchange(level, peak, t);
      Exchange(level, v, target);
      Exchange(peak, s, target);
    }
    Distribute(peak, level * t, s * target);
    Distribute(target, peak * s, v * level);
    Distribute(level, peak * t, v * target);
  }

  lemma Distribute(f: int, a: int, b: int)
    ensures f * (2 * (a - b)) == 2 * (f * a) - 2 * (f * b)
  {
  }

  lemma Exchange(a: int, b: int, c: int)
    ensures a * (b * c) == b * (a * c) == c * (b * a)
  {
  }

  lemma Bounded(f: int, x: int, bound: int)
    requires f > 0 && -bound <= x <= bound
    ensures -(f * bound) <= f * x <= f * bound
  {
    MulNonNegative(f, bound - x);
    MulNonNegative(f, bound + x);
    assert f * (bound - x) == f * bound - f * x && f * (bound + x) == f * bound + f * x;
  }

  // ----- A vector from RGB -----

  /** What each role contributes once the common white is taken out. */
  function Component(c: Rgb, white: int, role: Role): int {
    match role
    case Red => c.red - white
    case Green => c.green - white
    case Blue => c.blue - white
    case White => white
    case Unused => 0
  }

  function Whiteness(c: Rgb, roles: Roles): int {
    if White in roles then Min(c.red, Min(c.green, c.blue)) else 0
  }

  function Recipe(c: Rgb, roles: Roles): Channels {
    seq(6, i requires 0 <= i < 6 => Component(c, Whiteness(c, roles), roles[i]))
  }

  lemma FindRole(roles: Roles, role: Role) returns (i: nat)
    requires role in roles
    ensures i < 6 && roles[i] == role
  {
    i :| 0 <= i < 6 && roles[i] == role;
  }

  lemma ComponentBounds(c: Rgb, roles: Roles, role: Role)
    requires ValidRgb(c)
    ensures 0 <= Component(c, Whiteness(c, roles), role) <= RgbPeak(c) <= 255
  {
  }

  /** Every primary is mapped, so a nonzero colour has a positive recipe peak. */
  lemma RecipeBounds(c: Rgb, roles: Roles)
    requires ValidRgb(c) && ValidRoles(roles)
    ensures forall i | 0 <= i < 6 :: 0 <= Recipe(c, roles)[i] <= Peak(Recipe(c, roles))
    ensures 0 <= Peak(Recipe(c, roles)) <= RgbPeak(c) <= 255
    ensures RgbPeak(c) > 0 ==> Peak(Recipe(c, roles)) > 0
  {
    var recipe := Recipe(c, roles);
    forall i | 0 <= i < 6
      ensures 0 <= recipe[i] <= Peak(recipe)
    {
      assert recipe[i] in recipe;
      ComponentBounds(c, roles, roles[i]);
    }
    var top :| 0 <= top < 6 && recipe[top] == Peak(recipe);
    ComponentBounds(c, roles, roles[top]);
    var red := FindRole(roles, Red);
    var green := FindRole(roles, Green);
    var blue := FindRole(roles, Blue);
    assert recipe[red] == c.red - Whiteness(c, roles);
    assert recipe[green] == c.green - Whiteness(c, roles);
    assert recipe[blue] == c.blue - Whiteness(c, roles);
    if White in roles {
      var white := FindRole(roles, White);
      assert recipe[white] == Whiteness(c, roles);
    }
  }

  function MixedLevel(v: nat, level: nat, rgbPeak: nat, peak: nat): nat
    requires 0 < peak
  {
    HalfUp(v * level * rgbPeak, 255 * peak)
  }

  function Quantized(recipe: Channels, level: nat, rgbPeak: nat, peak: nat): Channels
    requires 0 < peak && forall i | 0 <= i < 6 :: 0 <= recipe[i]
  {
    seq(6, i requires 0 <= i < 6 => MixedLevel(recipe[i], level, rgbPeak, peak))
  }

  /** `mix_rgb`; `None` is its ValueError. */
  function Mix(c: Rgb, level: int, roles: Roles): Option<Channels> {
    if !ValidRgb(c) || !ValidIntensity(level) || !ValidRoles(roles) then None
    else if level == 0 || RgbPeak(c) == 0 then Some(ZERO)
    else
      RecipeBounds(c, roles);
      var recipe := Recipe(c, roles);
      Some(Chosen(Quantized(recipe, level, RgbPeak(c), Peak(recipe)), recipe))
  }

  function Chosen(mixed: Channels, recipe: Channels): Channels {
    if mixed != ZERO then mixed else Lit(recipe, Peak(recipe))
  }

  /** Intent below one level lights all tied peak channels at one level. */
  function Lit(recipe: Channels, peak: int): Channels {
    seq(6, i requires 0 <= i < 6 => if recipe[i] == peak then 1 else 0)
  }

  lemma MixedBounds(v: nat, level: nat, rgbPeak: nat, peak: nat)
    requires v <= peak && 0 < peak && rgbPeak <= 255
    ensures MixedLevel(v, level, rgbPeak, peak) <= level
    ensures v == 0 ==> MixedLevel(v, level, rgbPeak, peak) == 0
  {
    ProductBound(v, level, peak);
    assert v * level * rgbPeak <= v * level * 255 <= level * peak * 255 == level * (255 * peak) by {
      ProductBound(rgbPeak, v * level, 255);
      ProductBound(v * level, 255, level * peak);
    }
    HalfUpMonotone(v * level * rgbPeak, level * (255 * peak), 255 * peak);
    HalfUpExact(level, 255 * peak);
    HalfUpExact(0, 255 * peak);
  }

  lemma MixedOrder(v: nat, w: nat, level: nat, rgbPeak: nat, peak: nat)
    requires v <= w && 0 < peak
    ensures MixedLevel(v, level, rgbPeak, peak) <= MixedLevel(w, level, rgbPeak, peak)
  {
    ProductBound(v, level, w);
    ProductBound(v * level, rgbPeak, w * level);
    HalfUpMonotone(v * level * rgbPeak, w * level * rgbPeak, 255 * peak);
  }

  /** Neither exceeds the level, order is kept, and zero shares stay dark. */
  ghost predicate Proportioned(mixed: Channels, recipe: Channels, level: int) {
    && (forall i | 0 <= i < 6 :: 0 <= mixed[i] <= level && (recipe[i] == 0 ==> mixed[i] == 0))
    && (forall i, j | 0 <= i < 6 && 0 <= j < 6 && recipe[i] <= recipe[j] :: mixed[i] <= mixed[j])
  }

  lemma QuantizedBounds(recipe: Channels, level: nat, rgbPeak: nat, peak: nat)
    requires 0 < peak && rgbPeak <= 255 && forall i | 0 <= i < 6 :: 0 <= recipe[i] <= peak
    ensures Proportioned(Quantized(recipe, level, rgbPeak, peak), recipe, level)
  {
    forall i | 0 <= i < 6
      ensures MixedLevel(recipe[i], level, rgbPeak, peak) <= level
      ensures recipe[i] == 0 ==> MixedLevel(recipe[i], level, rgbPeak, peak) == 0
    {
      MixedBounds(recipe[i], level, rgbPeak, peak);
    }
    forall i, j | 0 <= i < 6 && 0 <= j < 6 && recipe[i] <= recipe[j]
      ensures MixedLevel(recipe[i], level, rgbPeak, peak) <= MixedLevel(recipe[j], level, rgbPeak, peak)
    {
      MixedOrder(recipe[i], recipe[j], level, rgbPeak, peak);
    }
  }

  lemma LitMeaning(recipe: Channels, peak: int, level: int)
    requires 1 <= level && peak > 0 && peak in recipe && (forall i | 0 <= i < 6 :: recipe[i] <= peak)
    ensures Proportioned(Lit(recipe, peak), recipe, level) && Lit(recipe, peak) != ZERO
  {
    var top :| 0 <= top < 6 && recipe[top] == peak;
    var lit := Lit(recipe, peak);
    assert lit[top] == 1;
  }

  lemma ChosenMeaning(mixed: Channels, recipe: Channels, level: int)
    requires 1 <= level && Peak(recipe) > 0 && (forall i | 0 <= i < 6 :: recipe[i] <= Peak(recipe))
    requires Proportioned(mixed, recipe, level)
    ensures Proportioned(Chosen(mixed, recipe), recipe, level) && Chosen(mixed, recipe) != ZERO
  {
    LitMeaning(recipe, Peak(recipe), level);
  }

  /** A mix never exceeds the level, lights something exactly for nonzero intent, never lights an
      unused channel, and gives a role with the larger share at least as much. */
  lemma MixMeaning(c: Rgb, level: int, roles: Roles) returns (mix: Channels)
    requires ValidRgb(c) && ValidIntensity(level) && ValidRoles(roles)
    ensures Mix(c, level, roles) == Some(mix)
    ensures Proportioned(mix, Recipe(c, roles), level)
    ensures mix != ZERO <==> level > 0 && RgbPeak(c) > 0
    ensures forall i | 0 <= i < 6 && roles[i] == Unused :: mix[i] == 0
  {
    mix := Mix(c, level, roles).value;
    var recipe := Recipe(c, roles);
    if level > 0 && RgbPeak(c) > 0 {
      RecipeBounds(c, roles);
      QuantizedBounds(recipe, level, RgbPeak(c), Peak(recipe));
      ChosenMeaning(Quantized(recipe, level, RgbPeak(c), Peak(recipe)), recipe, level);
    }
    assert forall i | 0 <= i < 6 && roles[i] == Unused :: recipe[i] == 0;
  }

  /** `s` is `v * level * rgbPeak / (255 * peak)` up to one half. */
  predicate NearestMixed(v: int, level: int, rgbPeak: int, peak: int, s: int) {
    -(255 * peak) <= 2 * (255 * peak * s - v * level * rgbPeak) <= 255 * peak
  }

  lemma MixedIsNearest(v: nat, level: nat, rgbPeak: nat, peak: nat)
    requires 0 < peak
    ensures NearestMixed(v, level, rgbPeak, peak, MixedLevel(v, level, rgbPeak, peak))
    ensures MixedLevel(v, level, rgbPeak, peak) == 0 ==> 2 * (v * level * rgbPeak) < 255 * peak
  {
    var s := MixedLevel(v, level, rgbPeak, peak);
    assert 2 * (255 * peak) * s == 2 * (255 * peak * s);
  }

  /** Every channel is its exact share to the nearest level; only when all shares are below one half
      are the peak channels lit instead. */
  lemma MixIsNearest(c: Rgb, level: int, roles: Roles)
    requires ValidRgb(c) && 0 < level <= 100 && RgbPeak(c) > 0 && ValidRoles(roles)
    ensures var recipe, mix := Recipe(c, roles), Mix(c, level, roles).value;
            var peak := Peak(recipe);
            || (forall i | 0 <= i < 6 :: NearestMixed(recipe[i], level, RgbPeak(c), peak, mix[i]))
            || (mix == Lit(recipe, peak) && forall i | 0 <= i < 6 :: 2 * (recipe[i] * level * RgbPeak(c)) < 255 * peak)
  {
    RecipeBounds(c, roles);
    var recipe := Recipe(c, roles);
    var mixed := Quantized(recipe, level, RgbPeak(c), Peak(recipe));
    forall i | 0 <= i < 6
      ensures NearestMixed(recipe[i], level, RgbPeak(c), Peak(recipe), mixed[i])
      ensures mixed[i] == 0 ==> 2 * (recipe[i] * level * RgbPeak(c)) < 255 * Peak(recipe)
    {
      MixedIsNearest(recipe[i], level, RgbPeak(c), Peak(recipe));
    }
  }

  // ----- The RGB display of a vector -----

  datatype Shown = Shown(rgb: Rgb) | NoColour | Refused

  /** The largest of the first `n` channels that serve `role`, or 0. */
  function RoleMax(values: seq<int>, roles: seq<Role>, role: Role, n: nat): int
    requires n <= |values| && n <= |roles|
  {
    if n == 0 then 0
    else
      var before := RoleMax(values, roles, role, n - 1);
      if roles[n - 1] == role then Max(before, values[n - 1]) else before
  }

  lemma {:induction false} RoleMaxBounds(values: seq<int>, roles: seq<Role>, role: Role, n: nat)
    requires n <= |values| && n <= |roles| && forall i | 0 <= i < n :: 0 <= values[i] <= 100
    ensures 0 <= RoleMax(values, roles, role, n) <= 100
    ensures forall i | 0 <= i < n && roles[i] == role :: values[i] <= RoleMax(values, roles, role, n)
    ensures RoleMax(values, roles, role, n) > 0 ==>
              exists i :: 0 <= i < n && roles[i] == role && values[i] == RoleMax(values, roles, role, n)
  {
    if n > 0 {
      RoleMaxBounds(values, roles, role, n - 1);
    }
  }

  /** The unnormalised display: the largest white level added to the largest of each primary. */
  function Blend(values: Channels, roles: Roles): Rgb {
    var white := RoleMax(values, roles, White, 6);
    Rgb(RoleMax(values, roles, Red, 6) + white, RoleMax(values, roles, Green, 6) + white,
      RoleMax(values, roles, Blue, 6) + white)
  }

  lemma BlendBounds(values: Channels, roles: Roles)
    requires ValidChannels(values)
    ensures var b := Blend(values, roles); 0 <= b.red && 0 <= b.green && 0 <= b.blue
  {
    RoleMaxBounds(values, roles, Red, 6);
    RoleMaxBounds(values, roles, Green, 6);
    RoleMaxBounds(values, roles, Blue, 6);
    RoleMaxBounds(values, roles, White, 6);
  }

  function Normalized(b: Rgb): Rgb
    requires 0 <= b.red && 0 <= b.green && 0 <= b.blue && 0 < RgbPeak(b)
  {
    Rgb(HalfUp(b.red * 255, RgbPeak(b)), HalfUp(b.green * 255, RgbPeak(b)), HalfUp(b.blue * 255, RgbPeak(b)))
  }

  function RgbFrom(values: Channels, roles: Roles): Shown {
    if !ValidChannels(values) || !ValidRoles(roles) then Refused
    else
      BlendBounds(values, roles);
      if RgbPeak(Blend(values, roles)) == 0 then NoColour else Shown(Normalized(Blend(values, roles)))
  }

  /** `rgb_from_channels`: one pass over the channels keeps the maximum of every role. */
  method ShowRgb(values: Channels, roles: Roles) returns (shown: Shown)
    ensures shown == RgbFrom(values, roles)
  {
    if !ValidChannels(values) || !ValidRoles(roles) { return Refused; }
    var components := map[Unused := 0, Red := 0, Green := 0, Blue := 0, White := 0];
    forall role: Role
      ensures role in components && components[role] == 0
    {
      match role { case Unused => case Red => case Green => case Blue => case White => }
    }
    var i := 0;
    while i < 6
      invariant 0 <= i <= 6
      invariant forall role: Role :: role in components && components[role] == RoleMax(values, roles, role, i)
    {
      components := components[roles[i] := Max(components[roles[i]], values[i])];
      i := i + 1;
    }
    var white := components[White];
    var blend := Rgb(components[Red] + white, components[Green] + white, components[Blue] + white);
    BlendBounds(values, roles);
    return if RgbPeak(blend) == 0 then NoColour else Shown(Normalized(blend));
  }

  lemma LitRole(values: Channels, roles: Roles, role: Role)
    requires ValidChannels(values)
    ensures RoleMax(values, roles, role, 6) >= 0
    ensures RoleMax(values, roles, role, 6) > 0 <==> exists i :: 0 <= i < 6 && roles[i] == role && values[i] > 0
  {
    RoleMaxBounds(values, roles, role, 6);
  }

  lemma NormalizedRange(b: Rgb)
    requires 0 <= b.red && 0 <= b.green && 0 <= b.blue && 0 < RgbPeak(b)
    ensures ValidRgb(Normalized(b)) && RgbPeak(Normalized(b)) == 255
  {
    ScaledLevel(b.red, 255, RgbPeak(b));
    ScaledLevel(b.green, 255, RgbPeak(b));
    ScaledLevel(b.blue, 255, RgbPeak(b));
  }

  /** Something is shown exactly when a coloured or white channel is lit, and its peak is 255. */
  lemma ShownMeaning(values: Channels, roles: Roles)
    requires ValidChannels(values) && ValidRoles(roles)
    ensures RgbFrom(values, roles).Shown? <==> exists i :: 0 <= i < 6 && roles[i] != Unused && values[i] > 0
    ensures RgbFrom(values, roles).Shown? ==>
              ValidRgb(RgbFrom(values, roles).rgb) && RgbPeak(RgbFrom(values, roles).rgb) == 255
  {
    LitRole(values, roles, Red);
    LitRole(values, roles, Green);
    LitRole(values, roles, Blue);
    LitRole(values, roles, White);
    BlendBounds(values, roles);
    var b := Blend(values, roles);
    if RgbPeak(b) > 0 { NormalizedRange(b); }
  }

  /** `level` is the largest of the channels that serve `role`, 0 if there is none. */
  predicate LargestOf(values: Channels, roles: Roles, role: Role, level: int) {
    && 0 <= level && (forall i | 0 <= i < 6 && roles[i] == role :: values[i] <= level)
    && (level == 0 || exists i :: 0 <= i < 6 && roles[i] == role && values[i] == level)
  }

  /** Each component shows the largest level of its own primary together with the largest white, brought to 255
      in the brightest of them and rounded to the nearest level. */
  lemma ShownExactly(values: Channels, roles: Roles, red: int, green: int, blue: int, white: int)
    requires ValidChannels(values) && ValidRoles(roles)
    requires LargestOf(values, roles, Red, red) && LargestOf(values, roles, Green, green)
    requires LargestOf(values, roles, Blue, blue) && LargestOf(values, roles, White, white)
    ensures var brightest := Max(red, Max(green, blue)) + white;
            if brightest == 0 then RgbFrom(values, roles) == NoColour
            else
              && RgbFrom(values, roles).Shown?
              && var shown := RgbFrom(values, roles).rgb;
                 && Nearest((red + white) * 255, brightest, shown.red)
                 && Nearest((green + white) * 255, brightest, shown.green)
                 && Nearest((blue + white) * 255, brightest, shown.blue)
  {
    RoleMaxIs(values, roles, Red, red);
    RoleMaxIs(values, roles, Green, green);
    RoleMaxIs(values, roles, Blue, blue);
    RoleMaxIs(values, roles, White, white);
    BlendBounds(values, roles);
    var b := Blend(values, roles);
    assert RgbPeak(b) == Max(red, Max(green, blue)) + white;
    if RgbPeak(b) > 0 {
      HalfUpIsNearest(b.red * 255, RgbPeak(b), HalfUp(b.red * 255, RgbPeak(b)));
      HalfUpIsNearest(b.green * 255, RgbPeak(b), HalfUp(b.green * 255, RgbPeak(b)));
      HalfUpIsNearest(b.blue * 255, RgbPeak(b), HalfUp(b.blue * 255, RgbPeak(b)));
    }
  }

  lemma RoleMaxIs(values: Channels, roles: Roles, role: Role, level: int)
    requires ValidChannels(values) && LargestOf(values, roles, role, level)
    ensures RoleMax(values, roles, role, 6) == level
  {
    RoleMaxBounds(values, roles, role, 6);
  }

  // ----- There and back -----

  lemma {:induction false} RoleMaxOf(values: seq<int>, roles: seq<Role>, role: Role, n: nat, level: nat)
    requires n <= |values| && n <= |roles|
    requires forall i | 0 <= i < n && roles[i] == role :: values[i] == level
    ensures RoleMax(values, roles, role, n) == if role in roles[..n] then level else 0
  {
    if n > 0 {
      RoleMaxOf(values, roles, role, n - 1, level);
      assert roles[..n] == roles[..n - 1] + [roles[n - 1]];
    }
  }

  /** `d` is `v` up to `255 / (2 level) + 1/2`. */
  predicate Near(level: int, v: int, d: int) {
    -(255 + level) <= 2 * level * (d - v) <= 255 + level
  }

  lemma BackAt(v: nat, level: nat)
    requires 0 < level
    ensures Near(level, v, HalfUp(HalfUp(v * level, 255) * 255, level))
  {
    var s := HalfUp(v * level, 255);
    var d := HalfUp(s * 255, level);
    assert 2 * level * (d - v) == (2 * level * d - 2 * (s * 255)) + (2 * 255 * s - 2 * (v * level));
  }

  lemma PeakedLevel(v: nat, level: nat)
    ensures MixedLevel(v, level, 255, 255) == HalfUp(v * level, 255)
  {
    HalfUpCancel(v * level, 255, 255);
  }

  lemma PeakedRecipe(c: Rgb, roles: Roles)
    requires ValidRgb(c) && RgbPeak(c) == 255 && ValidRoles(roles) && White !in roles
    ensures Peak(Recipe(c, roles)) == 255
  {
    var red := FindRole(roles, Red);
    var green := FindRole(roles, Green);
    var blue := FindRole(roles, Blue);
    RecipeBounds(c, roles);
    assert Recipe(c, roles)[red] == c.red && Recipe(c, roles)[green] == c.green && Recipe(c, roles)[blue] == c.blue;
  }

  function Shares(recipe: Channels, level: nat): Channels
    requires forall i | 0 <= i < 6 :: 0 <= recipe[i]
  {
    seq(6, i requires 0 <= i < 6 => HalfUp(recipe[i] * level, 255))
  }

  lemma SharesAtPeak(recipe: Channels, level: nat)
    requires level > 0 && (forall i | 0 <= i < 6 :: 0 <= recipe[i] <= 255) && 255 in recipe
    ensures Quantized(recipe, level, 255, 255) == Shares(recipe, level) != ZERO
  {
    forall i | 0 <= i < 6
      ensures Quantized(recipe, level, 255, 255)[i] == Shares(recipe, level)[i]
    {
      PeakedLevel(recipe[i], level);
    }
    var top :| 0 <= top < 6 && recipe[top] == 255;
    ScaledLevel(255, level, 255);
    assert Shares(recipe, level)[top] == level;
  }

  /** At full peak and without white, each channel is its own component's rounded share. */
  lemma PeakedMix(c: Rgb, level: int, roles: Roles) returns (mix: Channels)
    requires ValidRgb(c) && RgbPeak(c) == 255 && 1 <= level <= 100 && ValidRoles(roles) && White !in roles
    ensures Mix(c, level, roles) == Some(mix) && ValidChannels(mix)
    ensures forall i | 0 <= i < 6 :: 0 <= Recipe(c, roles)[i]
    ensures mix == Shares(Recipe(c, roles), level)
  {
    mix := MixMeaning(c, level, roles);
    RecipeBounds(c, roles);
    PeakedRecipe(c, roles);
    SharesAtPeak(Recipe(c, roles), level);
  }

  lemma PeakedBlend(c: Rgb, level: int, roles: Roles, mix: Channels)
    requires ValidRgb(c) && RgbPeak(c) == 255 && 1 <= level && ValidRoles(roles) && White !in roles
    requires (forall i | 0 <= i < 6 :: 0 <= Recipe(c, roles)[i]) && mix == Shares(Recipe(c, roles), level)
    ensures Blend(mix, roles) ==
              Rgb(HalfUp(c.red * level, 255), HalfUp(c.green * level, 255), HalfUp(c.blue * level, 255))
    ensures RgbPeak(Blend(mix, roles)) == level
  {
    assert roles[..6] == roles;
    RoleMaxOf(mix, roles, Red, 6, HalfUp(c.red * level, 255));
    RoleMaxOf(mix, roles, Green, 6, HalfUp(c.green * level, 255));
    RoleMaxOf(mix, roles, Blue, 6, HalfUp(c.blue * level, 255));
    RoleMaxOf(mix, roles, White, 6, 0);
    ScaledLevel(c.red, level, 255);
    ScaledLevel(c.green, level, 255);
    ScaledLevel(c.blue, level, 255);
  }

  /** Without a white role, showing a mix of a colour whose peak is 255 gives back every component
      up to `255 / (2 level) + 1/2`. */
  lemma MixShownBack(c: Rgb, level: int, roles: Roles) returns (mix: Channels, shown: Rgb)
    requires ValidRgb(c) && RgbPeak(c) == 255 && 1 <= level <= 100 && ValidRoles(roles) && White !in roles
    ensures Mix(c, level, roles) == Some(mix) && RgbFrom(mix, roles) == Shown(shown)
    ensures Near(level, c.red, shown.red) && Near(level, c.green, shown.green) && Near(level, c.blue, shown.blue)
  {
    mix := PeakedMix(c, level, roles);
    PeakedBlend(c, level, roles, mix);
    shown := RgbFrom(mix, roles).rgb;
    BackAt(c.red, level);
    BackAt(c.green, level);
    BackAt(c.blue, level);
  }
}
