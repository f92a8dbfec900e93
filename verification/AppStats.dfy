// The one-pass scan for the two most used applications: oplus_chg_track_pack_app_stats.
module AppStats {

  // `first` is a maximum of the table, the last one, and `second` a maximum of the rest.
  ghost predicate TopTwo(times: seq<nat>, first: nat, second: nat) {
    && first < |times| && second < |times| && first != second
    && (forall i :: 0 <= i < |times| ==> times[i] <= times[first])
    && (forall i :: first < i < |times| ==> times[i] < times[first])
    && (forall i :: 0 <= i < |times| && i != first ==> times[i] <= times[second])
  }

  // Scan all but the last entry, which collects the applications without one of their own.
  method FindTopTwo(contTime: array<nat>) returns (recordIndex: nat, secondIndex: nat)
    requires contTime.Length >= 1
    ensures contTime.Length > 2 ==> TopTwo(contTime[..contTime.Length - 1], recordIndex, secondIndex)
    ensures contTime.Length <= 2 ==> recordIndex == secondIndex == 0
  {
    recordIndex, secondIndex := 0, 0;
    var maxTime := 0;
    var i := 0;
    while i < contTime.Length - 1
      invariant 0 <= i <= contTime.Length - 1
      invariant i == 0 ==> maxTime == 0
      invariant i > 0 ==> recordIndex < i && maxTime == contTime[recordIndex]
      invariant i <= 1 ==> recordIndex == secondIndex == 0
      invariant i >= 2 ==> TopTwo(contTime[..i], recordIndex, secondIndex)
    {
      if contTime[i] >= maxTime {
        secondIndex := recordIndex;
        recordIndex := i;
        maxTime := contTime[i];
      } else if secondIndex == recordIndex || contTime[i] > contTime[secondIndex] {
        secondIndex := i;
      }
      i := i + 1;
    }
  }

  // The reported times, and the first index, do not depend on how ties are broken.
  lemma TopTwoIsUnique(times: seq<nat>, f1: nat, s1: nat, f2: nat, s2: nat)
    requires TopTwo(times, f1, s1) && TopTwo(times, f2, s2)
    ensures f1 == f2 && times[s1] == times[s2]
  {
    assert times[f1] <= times[f2] && times[f2] <= times[f1];
  }
}
