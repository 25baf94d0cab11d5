/** What set sizes need here. */
module Sets {
  lemma {:induction false} SubsetIsNoLarger<T>(s: set<T>, t: set<T>)
    requires s <= t
    ensures |s| <= |t|
  {
    if s != {} {
      var x :| x in s;
      SubsetIsNoLarger(s - {x}, t - {x});
    }
  }
}
