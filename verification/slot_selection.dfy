/** The pending multi-select of the booking page: (date, time slot) pairs the user
    has toggled on but not yet booked. A date is its instant in milliseconds
    (`getTime()`), a slot label is compared by exact string equality, so two slots
    match exactly when they are equal values. */
module SlotSelection {

  datatype SelectedSlot = SelectedSlot(dateMillis: int, timeSlot: string)

  /** No pair occurs twice. */
  predicate NoDuplicates(slots: seq<SelectedSlot>) {
    forall i, j | 0 <= i < j < |slots| :: slots[i] != slots[j]
  }

  /** The selection as a set. */
  function Elements(slots: seq<SelectedSlot>): set<SelectedSlot> {
    set s | s in slots
  }

  /** `filter(s => !matches(s, x))`: every entry equal to `x` dropped, the others
      kept in order. */
  function RemoveAll(slots: seq<SelectedSlot>, x: SelectedSlot): (r: seq<SelectedSlot>)
    ensures forall y :: y in r <==> y in slots && y != x
    ensures |r| <= |slots|
    ensures NoDuplicates(slots) ==> NoDuplicates(r)
  {
    if |slots| == 0 then []
    else
      var rest := RemoveAll(slots[1..], x);
      assert forall y :: y in slots <==> y == slots[0] || y in slots[1..] by {
        assert slots == [slots[0]] + slots[1..];
      }
      if slots[0] == x then rest
      else
        assert NoDuplicates(slots) ==> slots[0] !in slots[1..];
        assert NoDuplicates(slots) ==> NoDuplicates(slots[1..]) by {
          if NoDuplicates(slots) {
            forall i, j | 0 <= i < j < |slots[1..]| ensures slots[1..][i] != slots[1..][j] {
              assert slots[1..][i] == slots[i + 1] && slots[1..][j] == slots[j + 1];
            }
          }
        }
        [slots[0]] + rest
  }

  /** Filtering distributes over concatenation. */
  lemma {:induction false} RemoveAllAppend(a: seq<SelectedSlot>, b: seq<SelectedSlot>, x: SelectedSlot)
    ensures RemoveAll(a + b, x) == RemoveAll(a, x) + RemoveAll(b, x)
  {
    if |a| > 0 {
      RemoveAllAppend(a[1..], b, x);
      assert (a + b)[1..] == a[1..] + b;
    } else {
      assert a + b == b;
    }
  }

  /** Filtering out something absent changes nothing. */
  lemma {:induction false} RemoveAbsent(slots: seq<SelectedSlot>, x: SelectedSlot)
    requires x !in slots
    ensures RemoveAll(slots, x) == slots
  {
    if |slots| > 0 {
      assert x !in slots[1..];
      RemoveAbsent(slots[1..], x);
      assert [slots[0]] + slots[1..] == slots;
    }
  }

  /** `handleToggleSlot`: when some entry matches, every matching entry is removed;
      otherwise the pair is appended at the end. */
  function Toggle(slots: seq<SelectedSlot>, x: SelectedSlot): (r: seq<SelectedSlot>)
    ensures x !in slots ==> r == slots + [x]
    ensures x in slots ==> r == RemoveAll(slots, x)
    ensures x in slots ==> x !in r && |r| < |slots|
    ensures forall y :: y in r <==> (y in slots <==> y != x)
    ensures NoDuplicates(slots) ==> NoDuplicates(r)
  {
    if x in slots then
      var r := RemoveAll(slots, x);
      assert |r| < |slots| by {
        var i :| 0 <= i < |slots| && slots[i] == x;
        assert slots == slots[..i] + [x] + slots[i + 1..];
        RemoveAllAppend(slots[..i] + [x], slots[i + 1..], x);
        RemoveAllAppend(slots[..i], [x], x);
        assert RemoveAll([x], x) == [] by { assert [x][1..] == []; }
      }
      r
    else
      var r := slots + [x];
      assert NoDuplicates(slots) ==> NoDuplicates(r) by {
        if NoDuplicates(slots) {
          forall i, j | 0 <= i < j < |r| ensures r[i] != r[j] {
            if j == |slots| { assert r[i] == slots[i]; }
          }
        }
      }
      r
  }

  /** Toggling a pair twice, starting from a selection without it, gives back exactly
      the original sequence. */
  lemma ToggleTwiceRestores(slots: seq<SelectedSlot>, x: SelectedSlot)
    requires x !in slots
    ensures Toggle(Toggle(slots, x), x) == slots
  {
    RemoveAllAppend(slots, [x], x);
    RemoveAbsent(slots, x);
    assert RemoveAll([x], x) == [] by { assert [x][1..] == []; }
  }

  /** As a set, toggling is always its own inverse. */
  lemma ToggleIsInvolutiveOnSets(slots: seq<SelectedSlot>, x: SelectedSlot)
    ensures Elements(Toggle(Toggle(slots, x), x)) == Elements(slots)
  {
  }

  /** Filtering out a pair that occurs once drops exactly that occurrence. */
  lemma RemoveSingleOccurrence(pre: seq<SelectedSlot>, x: SelectedSlot, post: seq<SelectedSlot>)
    requires x !in pre && x !in post
    ensures RemoveAll(pre + [x] + post, x) == pre + post
  {
    var head := pre + [x];
    RemoveAllAppend(pre, [x], x);
    assert RemoveAll([x], x) == [] by { assert [x][1..] == []; }
    RemoveAbsent(pre, x);
    assert RemoveAll(head, x) == pre;
    RemoveAllAppend(head, post, x);
    RemoveAbsent(post, x);
    assert RemoveAll(head + post, x) == pre + post;
  }

  /** In a selection without duplicates, toggling off a selected pair removes exactly
      its one position. */
  lemma {:induction false} ToggleOffRemovesOnePosition(slots: seq<SelectedSlot>, i: nat)
    requires NoDuplicates(slots) && i < |slots|
    ensures Toggle(slots, slots[i]) == slots[..i] + slots[i + 1..]
  {
    var x := slots[i];
    var pre, post := slots[..i], slots[i + 1..];
    assert slots == pre + [x] + post;
    forall k | 0 <= k < |pre| ensures pre[k] != x {
      assert pre[k] == slots[k];
    }
    forall k | 0 <= k < |post| ensures post[k] != x {
      assert post[k] == slots[i + 1 + k];
    }
    RemoveSingleOccurrence(pre, x, post);
  }
}
