/** TagCompound as a map from names to tags.  The entries are a sequence of
    named tags, so every key is the name of its own entry; a well-formed
    compound has no name twice. */
module Compounds {
  import opened Bytes
  import opened Wrappers
  import opened TagTypes
  import opened Tags

  type Entries = seq<NamedTag>

  /** The set of names present in a compound. */
  function Keys(es: Entries): (ks: set<Name>)
    ensures forall i | 0 <= i < |es| :: es[i].name in ks
  {
    if |es| == 0 then {} else {es[0].name} + Keys(es[1..])
  }

  /** No name occurs twice: the first name is not among the rest, and so on. */
  predicate UniqueNames(es: Entries)
  {
    |es| == 0 || (es[0].name !in Keys(es[1..]) && UniqueNames(es[1..]))
  }

  /** The recursive definition agrees with the pairwise one. */
  lemma {:induction false} UniqueNamesPairwise(es: Entries)
    ensures UniqueNames(es) <==>
      forall i, j | 0 <= i < j < |es| :: es[i].name != es[j].name
    decreases |es|
  {
    if |es| > 0 {
      var rest := es[1..];
      UniqueNamesPairwise(rest);
      if UniqueNames(es) {
        forall i, j | 0 <= i < j < |es| ensures es[i].name != es[j].name {
          assert es[j] == rest[j - 1];
          if i > 0 {
            assert es[i] == rest[i - 1];
          }
        }
      }
      if forall i, j | 0 <= i < j < |es| :: es[i].name != es[j].name {
        forall i, j | 0 <= i < j < |rest| ensures rest[i].name != rest[j].name {
          assert rest[i] == es[i + 1] && rest[j] == es[j + 1];
        }
        if es[0].name in Keys(rest) {
          var j := KeyIndex(rest, es[0].name);
        }
      }
    }
  }

  /** The position of a present key. */
  function KeyIndex(es: Entries, name: Name): (i: nat)
    requires name in Keys(es)
    ensures i < |es| && es[i].name == name
  {
    if es[0].name == name then 0 else KeyIndex(es[1..], name) + 1
  }

  /** In a concatenation without repeated names, no name of the first part
      recurs in the second. */
  lemma UniqueAcross(a: Entries, b: Entries, i: int, j: int)
    requires UniqueNames(a + b)
    requires 0 <= i < |a| && 0 <= j < |b|
    ensures a[i].name != b[j].name
  {
    UniqueNamesPairwise(a + b);
    assert (a + b)[i] == a[i];
    assert (a + b)[|a| + j] == b[j];
  }

  /** `getOptional`: the tag stored under `name`, if any. */
  function Lookup(es: Entries, name: Name): (r: Option<Tag>)
    ensures r.None? <==> name !in Keys(es)
    ensures r.Some? ==> NamedTag(name, r.value) in es
  {
    if |es| == 0 then None
    else if es[0].name == name then Some(es[0].value)
    else Lookup(es[1..], name)
  }

  /** In a compound without repeated names, each entry is what a lookup of
      its name finds. */
  lemma {:induction false} LookupEntry(es: Entries, i: int)
    requires UniqueNames(es)
    requires 0 <= i < |es|
    ensures Lookup(es, es[i].name) == Some(es[i].value)
    decreases |es|
  {
    if i > 0 {
      assert es[1..][i - 1] == es[i];
      LookupEntry(es[1..], i - 1);
    }
  }

  /** `addTag(name, tag)`: a fresh name is appended, an existing one has its
      value replaced in place. */
  function Put(es: Entries, name: Name, t: Tag): (r: Entries)
    ensures Lookup(r, name) == Some(t)
    ensures forall m | m != name :: Lookup(r, m) == Lookup(es, m)
    ensures Keys(r) == Keys(es) + {name}
  {
    if |es| == 0 then [NamedTag(name, t)]
    else if es[0].name == name then
      var r := [NamedTag(name, t)] + es[1..];
      assert r[1..] == es[1..];
      r
    else
      var tail := Put(es[1..], name, t);
      var r := [es[0]] + tail;
      assert r[1..] == tail;
      r
  }

  /** A name not yet present goes to the end. */
  lemma {:induction false} PutFresh(es: Entries, name: Name, t: Tag)
    requires name !in Keys(es)
    ensures Put(es, name, t) == es + [NamedTag(name, t)]
    decreases |es|
  {
    if |es| > 0 {
      assert es[0].name != name;
      var n := NamedTag(name, t);
      PutFresh(es[1..], name, t);
      calc {
        Put(es, name, t);
        [es[0]] + Put(es[1..], name, t);
        [es[0]] + (es[1..] + [n]);
        { assert es == [es[0]] + es[1..]; }
        es + [n];
      }
    }
  }

  /** Storing never creates a repeated name. */
  lemma {:induction false} PutUnique(es: Entries, name: Name, t: Tag)
    requires UniqueNames(es)
    ensures UniqueNames(Put(es, name, t))
    decreases |es|
  {
    if |es| > 0 {
      var r := Put(es, name, t);
      if es[0].name == name {
        assert r[1..] == es[1..];
      } else {
        PutUnique(es[1..], name, t);
        assert r[1..] == Put(es[1..], name, t);
      }
    }
  }

  /** `addTag(NamedTag)`: the entry is stored under its own name. */
  function AddNamed(es: Entries, n: NamedTag): (r: Entries)
    ensures Lookup(r, n.name) == Some(n.value)
    ensures forall m | m != n.name :: Lookup(r, m) == Lookup(es, m)
  {
    Put(es, n.name, n.value)
  }

  /** `removeTag`: drops the entry with that name and nothing else. */
  function Remove(es: Entries, name: Name): (r: Entries)
    ensures Lookup(r, name) == None
    ensures forall m | m != name :: Lookup(r, m) == Lookup(es, m)
    ensures Keys(r) == Keys(es) - {name}
    ensures UniqueNames(es) ==> UniqueNames(r)
    ensures name !in Keys(es) ==> r == es
  {
    if |es| == 0 then []
    else
      var tail := Remove(es[1..], name);
      if es[0].name == name then tail
      else
        var r := [es[0]] + tail;
        assert r[1..] == tail;
        assert name !in Keys(es) ==> r == es by {
          if name !in Keys(es) {
            assert es == [es[0]] + es[1..];
          }
        }
        r
  }

  /** `hasTag`. */
  function HasTag(es: Entries, name: Name): (b: bool)
    ensures b <==> name in Keys(es)
  {
    Lookup(es, name).Some?
  }

  /** `getTag`: the tag under `name`, or an absent-value error naming the
      key exactly when there is none. */
  function GetTag(es: Entries, name: Name): (r: Result<Tag>)
    ensures r.Err? <==> name !in Keys(es)
    ensures r.Err? ==> r.error == AbsentValue(name)
    ensures r.Ok? ==> Lookup(es, name) == Some(r.value)
  {
    match Lookup(es, name)
    case Some(t) => Ok(t)
    case None => Err(AbsentValue(name))
  }

  /** `getTagDeep(names...)`: the empty path denotes the compound itself;
      otherwise each name is looked up in the compound the previous one
      found. */
  function GetTagDeep(es: Entries, names: seq<Name>): (r: Result<Tag>)
    ensures names == [] ==> r == Ok(TagCompound(es))
    ensures |names| == 1 ==> r == GetTag(es, names[0])
    decreases |names|
  {
    if |names| == 0 then Ok(TagCompound(es))
    else
      var t :- GetTag(es, names[0]);
      if |names| == 1 then Ok(t)
      else
        var c :- AsCompound(t);
        GetTagDeep(c, names[1..])
  }

  /** One link of the chain `getTag(a).asCompound().getTag(b)`: from the tag
      found so far, descend into it as a compound and look up `name`. */
  function Descend(found: Result<Tag>, name: Name): Result<Tag>
  {
    var t :- found;
    var c :- AsCompound(t);
    GetTag(c, name)
  }

  /** A deep lookup is the chain of single lookups: extending the path by
      one name is one more descent from the tag the shorter path found,
      failing as soon as a link is absent or not a compound. */
  lemma {:induction false} GetTagDeepChain(es: Entries, names: seq<Name>, name: Name)
    ensures GetTagDeep(es, names + [name]) == Descend(GetTagDeep(es, names), name)
    decreases |names|
  {
    if |names| > 0 {
      var path := names + [name];
      assert path[0] == names[0];
      assert path[1..] == names[1..] + [name];
      match GetTag(es, names[0])
      case Err(_) =>
      case Ok(t) =>
        if |names| > 1 {
          match AsCompound(t)
          case Err(_) =>
          case Ok(c) => GetTagDeepChain(c, names[1..], name);
        } else {
          assert names[1..] == [];
        }
    }
  }

  /** The typed getters of TagCompound: `getTag` followed by the strict
      accessor of the variant. */
  function GetByte(es: Entries, name: Name): (r: Result<int8>)
    ensures name !in Keys(es) ==> r == Err(AbsentValue(name))
    ensures r.Ok? <==> HasTag(es, name) && GetType(Lookup(es, name).value) == Byte
    ensures r.Ok? ==> Lookup(es, name) == Some(TagByte(r.value))
    ensures HasTag(es, name) && r.Err? ==> r.error == TypeMismatch
  {
    var t :- GetTag(es, name);
    Tags.GetByte(t)
  }

  function GetShort(es: Entries, name: Name): (r: Result<int16>)
    ensures name !in Keys(es) ==> r == Err(AbsentValue(name))
    ensures r.Ok? <==> HasTag(es, name) && GetType(Lookup(es, name).value) == Short
    ensures r.Ok? ==> Lookup(es, name) == Some(TagShort(r.value))
    ensures HasTag(es, name) && r.Err? ==> r.error == TypeMismatch
  {
    var t :- GetTag(es, name);
    Tags.GetShort(t)
  }

  function GetInt(es: Entries, name: Name): (r: Result<int32>)
    ensures name !in Keys(es) ==> r == Err(AbsentValue(name))
    ensures r.Ok? <==> HasTag(es, name) && GetType(Lookup(es, name).value) == Int
    ensures r.Ok? ==> Lookup(es, name) == Some(TagInt(r.value))
    ensures HasTag(es, name) && r.Err? ==> r.error == TypeMismatch
  {
    var t :- GetTag(es, name);
    Tags.GetInt(t)
  }

  function GetLong(es: Entries, name: Name): (r: Result<int64>)
    ensures name !in Keys(es) ==> r == Err(AbsentValue(name))
    ensures r.Ok? <==> HasTag(es, name) && GetType(Lookup(es, name).value) == Long
    ensures r.Ok? ==> Lookup(es, name) == Some(TagLong(r.value))
    ensures HasTag(es, name) && r.Err? ==> r.error == TypeMismatch
  {
    var t :- GetTag(es, name);
    Tags.GetLong(t)
  }

  function GetFloat(es: Entries, name: Name): (r: Result<uint32>)
    ensures name !in Keys(es) ==> r == Err(AbsentValue(name))
    ensures r.Ok? <==> HasTag(es, name) && GetType(Lookup(es, name).value) == Float
    ensures r.Ok? ==> Lookup(es, name) == Some(TagFloat(r.value))
    ensures HasTag(es, name) && r.Err? ==> r.error == TypeMismatch
  {
    var t :- GetTag(es, name);
    Tags.GetFloat(t)
  }

  function GetDouble(es: Entries, name: Name): (r: Result<uint64>)
    ensures name !in Keys(es) ==> r == Err(AbsentValue(name))
    ensures r.Ok? <==> HasTag(es, name) && GetType(Lookup(es, name).value) == Double
    ensures r.Ok? ==> Lookup(es, name) == Some(TagDouble(r.value))
    ensures HasTag(es, name) && r.Err? ==> r.error == TypeMismatch
  {
    var t :- GetTag(es, name);
    Tags.GetDouble(t)
  }

  function GetNumber(es: Entries, name: Name): (r: Result<Number>)
    ensures name !in Keys(es) ==> r == Err(AbsentValue(name))
    ensures r.Ok? <==> HasTag(es, name) && IsNumeric(GetType(Lookup(es, name).value))
    ensures r.Ok? ==> Tags.GetNumber(Lookup(es, name).value) == r
    ensures HasTag(es, name) && r.Err? ==> r.error == TypeMismatch
  {
    var t :- GetTag(es, name);
    Tags.GetNumber(t)
  }

  function GetString(es: Entries, name: Name): (r: Result<Name>)
    ensures name !in Keys(es) ==> r == Err(AbsentValue(name))
    ensures r.Ok? <==> HasTag(es, name) && GetType(Lookup(es, name).value) == String
    ensures r.Ok? ==> Lookup(es, name) == Some(TagString(r.value))
    ensures HasTag(es, name) && r.Err? ==> r.error == TypeMismatch
  {
    var t :- GetTag(es, name);
    Tags.GetString(t)
  }

  /** Storing the entries of `es` one after another, as compound decoding
      does. */
  function PutAll(acc: Entries, es: Entries): Entries
    decreases |es|
  {
    if |es| == 0 then acc else PutAll(Put(acc, es[0].name, es[0].value), es[1..])
  }

  /** The value of the last entry of `es` named `name`. */
  function LastValue(es: Entries, name: Name): (r: Option<Tag>)
    ensures r.None? <==> name !in Keys(es)
    ensures r.Some? ==> NamedTag(name, r.value) in es
  {
    if |es| == 0 then None
    else
      var later := LastValue(es[1..], name);
      if later.Some? then later
      else if es[0].name == name then Some(es[0].value)
      else None
  }

  /** Storing entries whose names are new and distinct appends them in
      order. */
  lemma {:induction false} PutAllFresh(acc: Entries, es: Entries)
    requires UniqueNames(acc + es)
    ensures PutAll(acc, es) == acc + es
    decreases |es|
  {
    if |es| > 0 {
      var all := acc + es;
      if es[0].name in Keys(acc) {
        UniqueAcross(acc, es, KeyIndex(acc, es[0].name), 0);
      }
      var acc' := Put(acc, es[0].name, es[0].value);
      PutFresh(acc, es[0].name, es[0].value);
      Assoc3(acc, [es[0]], es[1..]);
      assert [es[0]] + es[1..] == es;
      PutAllFresh(acc', es[1..]);
    }
  }

  /** A repeated name keeps the value of its last occurrence; names that do
      not occur keep what `acc` had. */
  lemma {:induction false} PutAllLastWins(acc: Entries, es: Entries, name: Name)
    ensures Lookup(PutAll(acc, es), name) ==
      if name in Keys(es) then LastValue(es, name) else Lookup(acc, name)
    decreases |es|
  {
    if |es| > 0 {
      PutAllLastWins(Put(acc, es[0].name, es[0].value), es[1..], name);
    }
  }

  lemma KeyOfReordered(es: Entries, emitted: Entries, i: int)
    requires multiset(emitted) == multiset(es)
    requires 0 <= i < |es|
    ensures es[i].name in Keys(emitted)
  {
    assert es[i] in multiset(emitted);
    var j :| 0 <= j < |emitted| && emitted[j] == es[i];
  }

  /** Reordering the entries of a compound without repeated names does not
      change which value the last occurrence of a name carries. */
  lemma LastValueReordered(es: Entries, emitted: Entries, name: Name)
    requires UniqueNames(es)
    requires multiset(emitted) == multiset(es)
    ensures LastValue(emitted, name) == Lookup(es, name)
  {
    var last := LastValue(emitted, name);
    if last.Some? {
      assert NamedTag(name, last.value) in multiset(es);
      var i :| 0 <= i < |es| && es[i] == NamedTag(name, last.value);
      LookupEntry(es, i);
    } else if name in Keys(es) {
      KeyOfReordered(es, emitted, KeyIndex(es, name));
    }
  }
}
