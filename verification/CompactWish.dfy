/**
  What a colour or brightness request asks for: the vector that the client computes, and independently of
  that arithmetic the shares which single that vector out.
 */
module CompactWish {
  import opened Colour
  import opened Lamp
  import opened Wrappers

  const START_LEVEL := 5

  /** The argument checks of `set_compact`. */
  predicate Requested(rgb: Option<Rgb>, level: Option<int>, roles: Roles, manual: Option<Channels>) {
    && ValidRoles(roles)
    && (rgb.Some? ==> ValidRgb(rgb.value) && RgbPeak(rgb.value) > 0)
    && (level.Some? ==> ValidIntensity(level.value) && level.value > 0)
    && (rgb.Some? || level.Some?)
    && (manual.Some? ==> ValidChannels(manual.value) && manual.value != ZERO)
  }

  /** The vector that a colour request asks for on top of `basis`; without a colour a nonzero basis
      is needed, and without a level the basis supplies it. */
  function Desired(rgb: Option<Rgb>, level: Option<int>, roles: Roles, basis: Option<Channels>): Option<Channels> {
    match rgb
    case None =>
      if basis.None? || basis.value == ZERO || level.None? then None
      else (match Scale(basis.value, level.value) case Vector(v) => Some(v) case _ => None)
    case Some(c) =>
      var chosen := if level.Some? then level.value else if basis.None? || Peak(basis.value) == 0 then START_LEVEL
        else Peak(basis.value);
      Mix(c, chosen, roles)
  }

  // ----- The same, by shares -----

  /** `top` is the largest of the values. */
  predicate Largest(values: seq<int>, top: int) {
    top in values && forall i | 0 <= i < |values| :: values[i] <= top
  }

  /** The shares of the channels in a colour: white is what all three primaries have in common, if some channel
      is white; each primary channel takes the rest of its primary, and an unused one nothing. */
  predicate SharesOf(share: Channels, white: int, c: Rgb, roles: Roles) {
    && (if White in roles then
          white in [c.red, c.green, c.blue] && white <= c.red && white <= c.green && white <= c.blue
        else white == 0)
    && forall i | 0 <= i < 6 :: ShareOf(roles[i], share[i], white, c)
  }

  predicate ShareOf(role: Role, share: int, white: int, c: Rgb) {
    match role
    case Red => share + white == c.red
    case Green => share + white == c.green
    case Blue => share + white == c.blue
    case White => share == white
    case Unused => share == 0
  }

  /** The explicit level; without one the basis's largest level, or 5 if it has none. */
  predicate ChosenLevel(level: Option<int>, basis: Option<Channels>, chosen: int) {
    if level.Some? then chosen == level.value
    else if basis.None? || basis.value == ZERO then chosen == 5
    else Largest(basis.value, chosen)
  }

  /** Every channel has its share of the level, in the brightness of the colour; where that is below one half
      everywhere, the channels with the largest share are lit at one. */
  predicate Mixes(v: Channels, share: Channels, top: int, level: int, bright: int) {
    if forall i | 0 <= i < 6 :: 2 * (share[i] * level * bright) < 255 * top then
      forall i | 0 <= i < 6 :: v[i] == if share[i] == top then 1 else 0
    else
      forall i | 0 <= i < 6 :: Nearest(share[i] * level * bright, 255 * top, v[i])
  }

  /** A colour at a level. */
  ghost predicate ServesColour(v: Channels, c: Rgb, level: int, roles: Roles) {
    exists share: Channels, white: int, top: int, bright: int ::
      && SharesOf(share, white, c, roles) && Largest(share, top) && Largest([c.red, c.green, c.blue], bright)
      && Mixes(v, share, top, level, bright)
  }

  /** The basis at another level, every channel in proportion. */
  ghost predicate ServesLevel(v: Channels, basis: Channels, level: int) {
    exists top :: Largest(basis, top) && forall i | 0 <= i < 6 :: Nearest(basis[i] * level, top, v[i])
  }

  /** The vector serves the request on top of the basis. */
  ghost predicate Serves(v: Channels, rgb: Option<Rgb>, level: Option<int>, roles: Roles, basis: Option<Channels>) {
    match rgb
    case None => level.Some? && basis.Some? && ServesLevel(v, basis.value, level.value)
    case Some(c) => exists chosen :: ChosenLevel(level, basis, chosen) && ServesColour(v, c, chosen, roles)
  }

  /** What a request comes to: a vector that serves it, or nothing, which is only without a colour and without a
      lit basis. */
  ghost predicate Wanted(wanted: Option<Channels>, rgb: Option<Rgb>, level: Option<int>, roles: Roles,
                         basis: Option<Channels>) {
    && (wanted.None? <==> rgb.None? && (basis.None? || basis.value == ZERO))
    && (wanted.Some? ==> ValidChannels(wanted.value) && Serves(wanted.value, rgb, level, roles, basis))
  }

  // ----- They agree -----

  lemma LargestIsPeak(values: seq<int>, top: int)
    requires values != []
    ensures Largest(values, top) <==> top == Peak(values)
  {
    assert Peak(values) in values;
    if top in values && forall i | 0 <= i < |values| :: values[i] <= top {
      assert Peak(values) <= top;
    }
    forall i | 0 <= i < |values| ensures values[i] <= Peak(values) { assert values[i] in values; }
  }

  /** Scaling serves a request without a colour, and nothing else does. */
  lemma ScaledServes(basis: Channels, level: int, v: Channels)
    requires ValidChannels(basis) && 0 < level <= 100 && basis != ZERO
    ensures Scale(basis, level).Vector? && (ServesLevel(v, basis, level) <==> v == Scale(basis, level).values)
  {
    var top := PeakAt(basis);
    var peak := Peak(basis);
    LargestIsPeak(basis, peak);
    NonzeroPeak(basis);
    forall t | Largest(basis, t) ensures t == peak { LargestIsPeak(basis, t); }
    forall i | 0 <= i < 6
      ensures Nearest(basis[i] * level, peak, v[i]) <==> v[i] == HalfUp(basis[i] * level, peak)
    {
      MulNonNegative(basis[i], level);
      HalfUpIsNearest(basis[i] * level, peak, v[i]);
    }
    if v == Scale(basis, level).values { assert ServesLevel(v, basis, level); }
  }

  lemma NonzeroPeak(basis: Channels)
    requires ValidChannels(basis)
    ensures Peak(basis) > 0 <==> basis != ZERO
  {
    if Peak(basis) <= 0 {
      forall i | 0 <= i < 6 ensures basis[i] == 0 { assert basis[i] in basis; }
      assert basis == ZERO;
    } else {
      assert Peak(basis) in basis;
    }
  }

  /** A recipe is what its shares say, and nothing else is. */
  lemma RecipeIsShares(c: Rgb, roles: Roles, share: Channels, white: int)
    requires ValidRgb(c)
    ensures SharesOf(share, white, c, roles) <==> white == Whiteness(c, roles) && share == Recipe(c, roles)
  {
    if SharesOf(share, white, c, roles) {
      forall i | 0 <= i < 6 ensures share[i] == Recipe(c, roles)[i] {
        assert ShareOf(roles[i], share[i], white, c);
      }
    }
    if white == Whiteness(c, roles) && share == Recipe(c, roles) {
      forall i | 0 <= i < 6 ensures ShareOf(roles[i], share[i], white, c) {
        assert share[i] == Component(c, white, roles[i]);
      }
    }
  }

  /** Below one half everywhere exactly when every rounded share is zero. */
  lemma QuantizedServes(recipe: Channels, level: nat, bright: nat, top: nat, v: Channels)
    requires 0 < top && (forall i | 0 <= i < 6 :: 0 <= recipe[i])
    ensures Mixes(v, recipe, top, level, bright) <==>
              v == if Quantized(recipe, level, bright, top) != ZERO then Quantized(recipe, level, bright, top)
                   else Lit(recipe, top)
  {
    var q := Quantized(recipe, level, bright, top);
    forall i | 0 <= i < 6
      ensures q[i] == HalfUp(recipe[i] * level * bright, 255 * top)
      ensures q[i] == 0 <==> 2 * (recipe[i] * level * bright) < 255 * top
      ensures Nearest(recipe[i] * level * bright, 255 * top, v[i]) <==> v[i] == q[i]
    {
      MulNonNegative(recipe[i], level);
      MulNonNegative(recipe[i] * level, bright);
      HalfUpIsNearest(recipe[i] * level * bright, 255 * top, v[i]);
      HalfUpIsNearest(recipe[i] * level * bright, 255 * top, 0);
    }
    assert q == ZERO <==> forall i | 0 <= i < 6 :: q[i] == 0;
  }

  /** Mixing serves a colour at a level, and nothing else does. */
  lemma MixedServes(c: Rgb, level: int, roles: Roles, v: Channels)
    requires ValidRgb(c) && RgbPeak(c) > 0 && 0 < level <= 100 && ValidRoles(roles)
    ensures Mix(c, level, roles).Some? && (ServesColour(v, c, level, roles) <==> v == Mix(c, level, roles).value)
  {
    var recipe := Recipe(c, roles);
    RecipeBounds(c, roles);
    QuantizedServes(recipe, level, RgbPeak(c), Peak(recipe), v);
    RecipeIsShares(c, roles, recipe, Whiteness(c, roles));
    LargestIsPeak(recipe, Peak(recipe));
    BrightIsPeak(c, RgbPeak(c));
    if ServesColour(v, c, level, roles) { var share, top, bright := OneRecipe(v, c, level, roles); }
  }

  /** The shares, the largest of them and the brightness that a served colour leaves no choice of. */
  lemma OneRecipe(v: Channels, c: Rgb, level: int, roles: Roles) returns (share: Channels, top: int, bright: int)
    requires ValidRgb(c) && ServesColour(v, c, level, roles)
    ensures share == Recipe(c, roles) && top == Peak(share) && bright == RgbPeak(c)
    ensures Mixes(v, share, top, level, bright)
  {
    var white: int;
    share, white, top, bright :|
      && SharesOf(share, white, c, roles) && Largest(share, top) && Largest([c.red, c.green, c.blue], bright)
      && Mixes(v, share, top, level, bright);
    RecipeIsShares(c, roles, share, white);
    LargestIsPeak(share, top);
    BrightIsPeak(c, bright);
  }

  lemma BrightIsPeak(c: Rgb, bright: int)
    ensures Largest([c.red, c.green, c.blue], bright) <==> bright == RgbPeak(c)
  {
    var s := [c.red, c.green, c.blue];
    assert s[0] == c.red && s[1] == c.green && s[2] == c.blue;
  }

  lemma ChosenIsUnique(level: Option<int>, basis: Option<Channels>, chosen: int)
    requires basis.Some? ==> ValidChannels(basis.value)
    ensures ChosenLevel(level, basis, chosen) <==>
              chosen == if level.Some? then level.value
                        else if basis.None? || Peak(basis.value) == 0 then START_LEVEL else Peak(basis.value)
  {
    if basis.Some? {
      NonzeroPeak(basis.value);
      LargestIsPeak(basis.value, chosen);
    }
  }

  /** The client computes exactly the vector that serves the request, and none only when no colour is given
      and no lit basis is known. */
  lemma DesiredServes(rgb: Option<Rgb>, level: Option<int>, roles: Roles, manual: Option<Channels>,
                      basis: Option<Channels>)
    requires Requested(rgb, level, roles, manual) && (basis.Some? ==> ValidChannels(basis.value))
    ensures Desired(rgb, level, roles, basis).None? <==> rgb.None? && (basis.None? || basis.value == ZERO)
    ensures Wanted(Desired(rgb, level, roles, basis), rgb, level, roles, basis)
    ensures Desired(rgb, level, roles, basis).Some? ==>
              forall v: Channels ::
                Serves(v, rgb, level, roles, basis) <==> v == Desired(rgb, level, roles, basis).value
  {
    match rgb
    case None =>
      if basis.Some? && basis.value != ZERO {
        ScaledServes(basis.value, level.value, ZERO);
        var scaled := Scale(basis.value, level.value).values;
        ScaledServes(basis.value, level.value, scaled);
        LevelServed(scaled, basis.value, level.value);
        forall v: Channels
          ensures Serves(v, rgb, level, roles, basis) <==> v == Desired(rgb, level, roles, basis).value
        {
          ScaledServes(basis.value, level.value, v);
        }
      }
    case Some(c) =>
      var chosen := if level.Some? then level.value else if basis.None? || Peak(basis.value) == 0 then START_LEVEL
        else Peak(basis.value);
      if basis.Some? { var top := PeakAt(basis.value); }
      forall v: Channels
        ensures Serves(v, rgb, level, roles, basis) <==> v == Desired(rgb, level, roles, basis).value
      {
        MixedServes(c, chosen, roles, v);
        ChosenIsUnique(level, basis, chosen);
        forall other: int ensures ChosenLevel(level, basis, other) ==> other == chosen {
          ChosenIsUnique(level, basis, other);
        }
      }
      MixedServes(c, chosen, roles, ZERO);
      var mix := MixMeaning(c, chosen, roles);
  }

  /** What the client computes is what is wanted. */
  lemma DesiredIsWanted(rgb: Option<Rgb>, level: Option<int>, roles: Roles, manual: Option<Channels>,
                        basis: Option<Channels>)
    requires Requested(rgb, level, roles, manual) && (basis.Some? ==> ValidChannels(basis.value))
    ensures Wanted(Desired(rgb, level, roles, basis), rgb, level, roles, basis)
  {
    DesiredServes(rgb, level, roles, manual, basis);
  }

  /** A level without a colour is the exact peak, and keeps the order of the basis's channels. */
  lemma LevelServed(v: Channels, basis: Channels, level: int)
    requires ValidChannels(basis) && basis != ZERO && 0 < level <= 100 && ServesLevel(v, basis, level)
    ensures ValidChannels(v) && Largest(v, level)
    ensures forall i, j | 0 <= i < 6 && 0 <= j < 6 && basis[i] <= basis[j] :: v[i] <= v[j]
  {
    ScaledServes(basis, level, v);
    NonzeroPeak(basis);
    var scaled := ScaleHitsPeak(basis, level);
    LargestIsPeak(v, level);
  }

  /** A colour lights something, nothing above the level, no unused channel, and a larger share no less. */
  lemma ColourServed(v: Channels, c: Rgb, level: int, roles: Roles, share: Channels, white: int)
    requires ValidRgb(c) && RgbPeak(c) > 0 && 0 < level <= 100 && ValidRoles(roles) && ServesColour(v, c, level, roles)
    requires SharesOf(share, white, c, roles)
    ensures v != ZERO && forall i | 0 <= i < 6 :: 0 <= v[i] <= level && (roles[i] == Unused ==> v[i] == 0)
    ensures forall i, j | 0 <= i < 6 && 0 <= j < 6 && share[i] <= share[j] :: v[i] <= v[j]
  {
    MixedServes(c, level, roles, v);
    RecipeIsShares(c, roles, share, white);
    var mix := MixMeaning(c, level, roles);
  }
}
