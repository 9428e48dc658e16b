/** The evolution path: one node per tier, unlocked once the player's total
    XP reaches the tier's threshold, the player's own tier marked current, and
    a preview of the next tier with the XP still missing. */
module EvolutionView {
  import opened Common
  import opened GameTypes
  import opened Progression

  datatype Node = Node(level: AvatarLevel, minXP: int, unlocked: bool, current: bool)

  /** The nodes, in table order. */
  function Nodes(currentLevel: AvatarLevel, totalXP: int): (ns: seq<Node>)
    ensures |ns| == |AvatarLevels|
    ensures forall i :: 0 <= i < |ns| ==> ns[i].level == AvatarLevels[i].level && ns[i].minXP == AvatarLevels[i].minXP
    ensures forall i :: 0 <= i < |ns| ==> (ns[i].unlocked <==> totalXP >= AvatarLevels[i].minXP)
    ensures forall i :: 0 <= i < |ns| ==> (ns[i].current <==> AvatarLevels[i].level == currentLevel)
  {
    seq(|AvatarLevels|, i requires 0 <= i < |AvatarLevels| =>
      Node(AvatarLevels[i].level, AvatarLevels[i].minXP,
           totalXP >= AvatarLevels[i].minXP, AvatarLevels[i].level == currentLevel))
  }

  /** The unlocked nodes are a prefix of the path, as long as the tier
      reached from the XP; and exactly one node, the player's tier, is
      current. */
  lemma NodesShape(currentLevel: AvatarLevel, totalXP: int)
    requires totalXP >= 0
    ensures var ns := Nodes(currentLevel, totalXP);
            && (forall i, j :: 0 <= i < j < |ns| && ns[j].unlocked ==> ns[i].unlocked)
            && (forall i :: 0 <= i < |ns| ==> (ns[i].unlocked <==> i <= Ord(GetAvatarLevel(totalXP))))
            && ns[Ord(currentLevel)].current
            && (forall i :: 0 <= i < |ns| && ns[i].current ==> i == Ord(currentLevel))
  {
    AvatarTableWellFormed();
    var l := GetAvatarLevel(totalXP);
    var ns := Nodes(currentLevel, totalXP);
    forall i | 0 <= i < |ns| ensures ns[i].unlocked <==> i <= Ord(l) {
      var m := AvatarLevels[i].level;
      assert Ord(m) == i;
      if i > Ord(l) {
        assert totalXP < MinXP(m);
      } else {
        assert AvatarLevels[i].minXP <= AvatarLevels[Ord(l)].minXP;
      }
    }
    forall i | 0 <= i < |ns| && ns[i].current ensures i == Ord(currentLevel) {
      assert Ord(AvatarLevels[i].level) == i;
    }
  }

  /** `Math.min(100, totalXP / 2000 * 100)`: how far the player is toward
      the last tier, which the path's line and the dragon teaser both show. */
  function DragonPercent(totalXP: int): (p: real)
    ensures p <= 100.0
    ensures totalXP >= 0 ==> p >= 0.0
    ensures p == 100.0 <==> totalXP >= MinXP(Dragon)
  {
    var raw := (totalXP as real / 2000.0) * 100.0;
    if raw <= 100.0 then raw else 100.0
  }

  /** The next tier and the XP it still needs, shown unless the player's
      tier is the last. */
  function NextPreview(currentLevel: AvatarLevel, totalXP: int): (r: Option<(AvatarLevel, int)>)
    ensures r.Some? <==> currentLevel != Dragon
    ensures r.Some? ==> Ord(r.value.0) == Ord(currentLevel) + 1 && r.value.1 == MinXP(r.value.0) - totalXP
  {
    var currentIndex := FindLevelIndex(AvatarLevels, currentLevel);
    FindLevelIndexIsOrd(currentLevel);
    AvatarTableWellFormed();
    if currentIndex < |AvatarLevels| - 1 then
      var next := AvatarLevels[currentIndex + 1];
      Some((next.level, next.minXP - totalXP))
    else None
  }

  /** When the shown tier is the one the XP earns, the preview always asks
      for a positive amount. */
  lemma PreviewRemainingPositive(totalXP: int)
    ensures var r := NextPreview(GetAvatarLevel(totalXP), totalXP);
            r.Some? ==> r.value.1 > 0
  {
  }
}
