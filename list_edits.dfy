/** The two edits the merge and images-to-PDF tools make to their file lists:
    dropping the entry at a position (a `filter` on the position) and swapping
    an entry with its neighbour above or below. */
module ListEdits {

  datatype Direction = Up | Down

  /** `list.filter((_, i) => i !== index)`: the entries whose position is not `index`. */
  function RemovedAt<T>(s: seq<T>, index: int): (r: seq<T>)
    ensures 0 <= index < |s| ==> r == s[..index] + s[index + 1..]
    ensures !(0 <= index < |s|) ==> r == s
  {
    if s == [] then []
    else
      var n := |s| - 1;
      var front := RemovedAt(s[..n], index);
      if n == index then
        assert s[..n] == s[..index] + s[index + 1..];
        front
      else
        KeepLast(s, index);
        front + [s[n]]
  }

  lemma KeepLast<T>(s: seq<T>, index: int)
    requires s != [] && index != |s| - 1
    ensures var n := |s| - 1;
            if 0 <= index < n then s[..n][..index] == s[..index] && s[..n][index + 1..] + [s[n]] == s[index + 1..]
            else s[..n] + [s[n]] == s
  {
    var n := |s| - 1;
    if 0 <= index < n {
      assert s[..n][..index] == s[..index];
      assert s[..n][index + 1..] + [s[n]] == s[index + 1..];
    } else {
      assert s[..n] + [s[n]] == s;
    }
  }

  /** Removing an entry takes exactly that one entry out of the list. */
  lemma RemovedAtTakesOne<T>(s: seq<T>, index: int)
    requires 0 <= index < |s|
    ensures |RemovedAt(s, index)| == |s| - 1
    ensures multiset(RemovedAt(s, index)) + multiset{s[index]} == multiset(s)
  {
    var r := RemovedAt(s, index);
    var a, b := s[..index], s[index + 1..];
    assert r == a + b;
    SplitAround(s, index);
  }

  lemma SplitAround<T>(s: seq<T>, index: int)
    requires 0 <= index < |s|
    ensures multiset(s) == multiset(s[..index]) + multiset{s[index]} + multiset(s[index + 1..])
  {
    var a, b := s[..index], s[index + 1..];
    assert s == a + [s[index]] + b;
  }

  /** The position the entry at `index` moves to. */
  function Target(index: int, d: Direction): int {
    if d == Up then index - 1 else index + 1
  }

  /** The list after moving the entry at `index` one place up or down: swapped
      with that neighbour when there is one, unchanged at either end. */
  function Moved<T>(s: seq<T>, index: int, d: Direction): (r: seq<T>)
    requires 0 <= index < |s|
    ensures |r| == |s| && multiset(r) == multiset(s)
    ensures 0 <= Target(index, d) < |s| ==>
              r[Target(index, d)] == s[index] && r[index] == s[Target(index, d)]
              && forall k :: 0 <= k < |s| && k != index && k != Target(index, d) ==> r[k] == s[k]
    ensures !(0 <= Target(index, d) < |s|) ==> r == s
  {
    var n := Target(index, d);
    if 0 <= n < |s| then s[index := s[n]][n := s[index]] else s
  }

  /** Moving an entry up and then moving it back down restores the list. */
  lemma MovedUpThenDown<T>(s: seq<T>, index: int)
    requires 0 < index < |s|
    ensures Moved(Moved(s, index, Up), index - 1, Down) == s
  {
    var r := Moved(Moved(s, index, Up), index - 1, Down);
    assert forall k :: 0 <= k < |s| ==> r[k] == s[k];
  }

  /** Moving an entry down and then moving it back up restores the list. */
  lemma MovedDownThenUp<T>(s: seq<T>, index: int)
    requires 0 <= index < |s| - 1
    ensures Moved(Moved(s, index, Down), index + 1, Up) == s
  {
    var r := Moved(Moved(s, index, Down), index + 1, Up);
    assert forall k :: 0 <= k < |s| ==> r[k] == s[k];
  }

  /** `[...list]` with the entries at `i` and `j` exchanged, as the tool does it:
      swapped in place on a fresh copy. */
  method SwappedCopy<T>(list: seq<T>, i: nat, j: nat) returns (r: seq<T>)
    requires i < |list| && j < |list|
    ensures |r| == |list| && r[i] == list[j] && r[j] == list[i]
    ensures forall k :: 0 <= k < |list| && k != i && k != j ==> r[k] == list[k]
  {
    var copy := new T[|list|](k requires 0 <= k < |list| => list[k]);
    var a, b := copy[j], copy[i];
    copy[i], copy[j] := a, b;
    r := copy[..];
  }

  /** Swapping positions on a copy is the neighbour move. */
  lemma SwapIsMove<T>(list: seq<T>, index: nat, d: Direction, r: seq<T>)
    requires index < |list| && 0 <= Target(index, d) < |list|
    requires |r| == |list| && r[index] == list[Target(index, d)] && r[Target(index, d)] == list[index]
    requires forall k :: 0 <= k < |list| && k != index && k != Target(index, d) ==> r[k] == list[k]
    ensures r == Moved(list, index, d)
  {
    var m := Moved(list, index, d);
    assert forall k :: 0 <= k < |list| ==> r[k] == m[k];
  }
}
