/** Small datatypes and facts about sequences shared by the other modules. */
module Common {
  datatype Option<+T> = None | Some(value: T)

  datatype Result<+T, +E> = Ok(value: T) | Err(error: E)

  lemma ConcatAssoc<T>(a: seq<T>, b: seq<T>, c: seq<T>)
    ensures a + b + c == a + (b + c)
  {
  }

  lemma ConcatEmpty<T>(a: seq<T>)
    ensures a + [] == a && [] + a == a
  {
  }

  lemma TakeSnoc<T>(s: seq<T>, k: nat)
    requires k < |s|
    ensures s[..k + 1] == s[..k] + [s[k]]
  {
  }

  function Concat<T>(parts: seq<seq<T>>): seq<T> {
    if parts == [] then [] else Concat(parts[..|parts| - 1]) + parts[|parts| - 1]
  }

  lemma ConcatSnoc<T>(parts: seq<seq<T>>, last: seq<T>)
    ensures Concat(parts + [last]) == Concat(parts) + last
  {
    assert (parts + [last])[..|parts|] == parts;
  }

  lemma {:induction false} ConcatCons<T>(first: seq<T>, parts: seq<seq<T>>)
    ensures Concat([first] + parts) == first + Concat(parts)
  {
    if parts == [] {
      ConcatSnoc([], first);
      ConcatEmpty(first);
      ConcatEmpty([first]);
    } else {
      var front, last := parts[..|parts| - 1], parts[|parts| - 1];
      ConcatCons(first, front);
      assert parts == front + [last];
      ConcatAssoc([first], front, [last]);
      ConcatSnoc([first] + front, last);
      ConcatAssoc(first, Concat(front), last);
    }
  }
}
