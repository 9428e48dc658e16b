/** The avatar gallery: one card per tier, in table order, each labelled
    "Current", "✓ Unlocked" or with the XP it requires. */
module GalleryView {
  import opened Common
  import opened GameTypes
  import opened Progression

  const CurrentLabel: string := "Current"
  const UnlockedLabel: string := "\U{2713} Unlocked"

  /** The label of the card for table row `i`. */
  function CardLabel(i: nat, currentLevel: AvatarLevel, totalXP: int): (text: string)
    requires i < |AvatarLevels|
    ensures text == CurrentLabel <==> totalXP >= AvatarLevels[i].minXP && AvatarLevels[i].level == currentLevel
    ensures text == UnlockedLabel <==> totalXP >= AvatarLevels[i].minXP && AvatarLevels[i].level != currentLevel
    ensures totalXP < AvatarLevels[i].minXP <==> text == DecimalString(AvatarLevels[i].minXP) + " XP required"
  {
    var row := AvatarLevels[i];
    AvatarTableWellFormed();
    var required := DecimalString(row.minXP) + " XP required";
    assert required[|required| - 1] == 'd';
    if totalXP >= row.minXP then
      if row.level == currentLevel then CurrentLabel else UnlockedLabel
    else required
  }

  /** All card labels, in table order. */
  function CardLabels(currentLevel: AvatarLevel, totalXP: int): (labels: seq<string>)
    ensures |labels| == |AvatarLevels|
    ensures forall i :: 0 <= i < |labels| ==> labels[i] == CardLabel(i, currentLevel, totalXP)
  {
    seq(|AvatarLevels|, i requires 0 <= i < |AvatarLevels| => CardLabel(i, currentLevel, totalXP))
  }

  /** With the tier the XP earns, exactly one card reads "Current": the
      highest unlocked one. */
  lemma ExactlyOneCurrentCard(totalXP: int)
    requires totalXP >= 0
    ensures var labels := CardLabels(GetAvatarLevel(totalXP), totalXP);
            var c := Ord(GetAvatarLevel(totalXP));
            && labels[c] == CurrentLabel
            && (forall i :: 0 <= i < |labels| && i != c ==> labels[i] != CurrentLabel)
            && (forall i :: 0 <= i < |labels| && i > c ==> labels[i] != UnlockedLabel)
  {
    AvatarTableWellFormed();
    var l := GetAvatarLevel(totalXP);
    var labels := CardLabels(l, totalXP);
    forall i | 0 <= i < |labels| && i != Ord(l) ensures labels[i] != CurrentLabel {
      assert Ord(AvatarLevels[i].level) == i;
    }
    forall i | 0 <= i < |labels| && i > Ord(l) ensures labels[i] != UnlockedLabel {
      assert totalXP < MinXP(AvatarLevels[i].level);
    }
  }
}
