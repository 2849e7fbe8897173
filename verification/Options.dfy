/** The usual option type, used for the C program's NULL pointers and None identifiers. */
module Options {
  datatype Option<+T> = None | Some(value: T)

  /** The first place in the list with a hit, or the length of the list. */
  function First<T>(s: seq<T>, hit: T -> bool): (i: nat)
    ensures i <= |s|
    ensures i < |s| ==> hit(s[i])
    ensures forall k :: 0 <= k < i ==> !hit(s[k])
  {
    if |s| == 0 || hit(s[0]) then 0 else 1 + First(s[1..], hit)
  }
}
