/** Which settings of config.rs the capacity theorem of Membership applies to. */
module ConfiguredLimits {
  import opened Config
  import ViewSpec
  import Membership

  // The limits a view works with.
  function LimitsOf(c: Config): ViewSpec.Limits {
    ViewSpec.Limits(
      c.MaxActiveViewSize(), c.MinActiveViewSize(), c.MaxPassiveViewSize(), c.ActiveWalkLength(), c.ShuffleMaxSize())
  }

  // It applies to exactly these settings, and to exactly those under which every step
  // among nodes running this code is harmless.
  lemma RoomyIff(c: Config)
    ensures Membership.Roomy(LimitsOf(c)) <==>
            c.networkSize >= 1
            && (c.activeViewFactor >= 2 || (c.activeViewFactor == 1 && c.networkSize >= 2) || c.networkSize >= 3)
    ensures Membership.Roomy(LimitsOf(c)) <==> forall v, s, p :: Membership.Contained(LimitsOf(c), v, s, p)
  {
    TwoActiveSlots(c);
    ViewSizesOrdered(c);
    Membership.TwoSlotsIff(LimitsOf(c));
  }
}
