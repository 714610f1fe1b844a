/** TagList: a sequence of tags that should all have one type. */
module Lists {
  import opened Wrappers
  import opened TagTypes
  import opened Tags

  /** Every tag in `items` has type `ty`. */
  function AllOfType(items: seq<Tag>, ty: TagType): (ok: bool)
    ensures ok <==> forall i | 0 <= i < |items| :: GetType(items[i]) == ty
  {
    |items| == 0 || (GetType(items[0]) == ty && AllOfType(items[1..], ty))
  }

  /** `checkListIntegrity`: the first element fixes the type and every later
      element must have it; the empty list passes. */
  function CheckListIntegrity(items: seq<Tag>): (ok: bool)
    ensures ok <==> forall i, j | 0 <= i < |items| && 0 <= j < |items| ::
      GetType(items[i]) == GetType(items[j])
  {
    |items| == 0 || AllOfType(items[1..], GetType(items[0]))
  }

  /** The element type a list announces on the wire: that of its first
      element, or BYTE for the empty list. */
  function ElementType(items: seq<Tag>): (ty: TagType)
    ensures |items| == 0 ==> ty == Byte
    ensures CheckListIntegrity(items) ==> AllOfType(items, ty)
  {
    if |items| == 0 then Byte else GetType(items[0])
  }

  /** `addTag` appends at the end and does not consult the element type. */
  function AddTag(items: seq<Tag>, t: Tag): (r: seq<Tag>)
    ensures |r| == |items| + 1
    ensures r[..|items|] == items && r[|items|] == t
  {
    items + [t]
  }

  /** Appending keeps the list homogeneous exactly when the new tag has the
      list's type (or the list was empty). */
  lemma AddTagIntegrity(items: seq<Tag>, t: Tag)
    ensures CheckListIntegrity(AddTag(items, t)) <==>
      CheckListIntegrity(items) && (|items| == 0 || GetType(t) == GetType(items[0]))
  {
    var r := AddTag(items, t);
    if CheckListIntegrity(r) {
      assert forall i | 0 <= i < |items| :: items[i] == r[i];
    }
  }

  /** Because `addTag` does not check, it can break a homogeneous list. */
  lemma AddTagUnchecked()
    ensures CheckListIntegrity([TagByte(0)])
    ensures !CheckListIntegrity(AddTag([TagByte(0)], TagInt(0)))
  {
    var r := AddTag([TagByte(0)], TagInt(0));
    assert GetType(r[0]) != GetType(r[1]);
  }

  /** `new TagList(values)` and `setTags(values)`: the contents are replaced
      by the given tags, and the Java assertion rejects a mixed list. */
  function SetTags(items: seq<Tag>): (r: Result<seq<Tag>>)
    ensures r.Ok? <==> forall i, j | 0 <= i < |items| && 0 <= j < |items| ::
      GetType(items[i]) == GetType(items[j])
    ensures r.Ok? ==> r.value == items
    ensures r.Err? ==> r.error == AssertionFailed
  {
    if CheckListIntegrity(items) then Ok(items) else Err(AssertionFailed)
  }

  /** A list accepted by `setTags` stays acceptable when tags of its announced
      element type are appended, and an appended tag of another type makes
      `setTags` refuse the result. */
  lemma {:induction false} SetTagsAddTag(items: seq<Tag>, extra: seq<Tag>)
    requires SetTags(items).Ok?
    ensures SetTags(items + extra).Ok? <==>
      (|items| == 0 && SetTags(extra).Ok?) ||
      (|items| > 0 && AllOfType(extra, ElementType(items)))
    decreases |extra|
  {
    if |extra| > 0 {
      var last := extra[|extra| - 1];
      var front := extra[..|extra| - 1];
      assert items + extra == AddTag(items + front, last);
      AddTagIntegrity(items + front, last);
      if |items| == 0 {
        assert items + extra == extra;
      } else {
        SetTagsAddTag(items, front);
        assert (items + front)[0] == items[0];
        AllOfTypeSnoc(front, last, ElementType(items));
      }
    } else {
      assert items + extra == items;
    }
  }

  /** `AllOfType` splits at the last element. */
  lemma AllOfTypeSnoc(front: seq<Tag>, last: Tag, ty: TagType)
    ensures AllOfType(front + [last], ty) <==> AllOfType(front, ty) && GetType(last) == ty
  {
    var r := front + [last];
    assert forall i | 0 <= i < |front| :: r[i] == front[i];
    assert r[|front|] == last;
    if AllOfType(r, ty) {
      assert forall i | 0 <= i < |front| :: GetType(front[i]) == ty by {
        forall i | 0 <= i < |front| ensures GetType(front[i]) == ty {
          assert GetType(r[i]) == ty;
        }
      }
    }
  }
}
