/** The registry of watched courses (src/config.py). The JSON file at `path` is an
    ordered mapping from notification topic to an ordered list of CRNs; the registry
    keeps it as the field `file` and flattens it into (course, topic) pairs. */
module Config {
  import opened Courses

  /** One key of the JSON object: a topic and the CRNs watched for it. */
  datatype Entry = Entry(topic: string, ids: seq<string>)

  /** The JSON object in key order (Python dictionaries keep insertion order). */
  type Mapping = seq<Entry>

  /** A JSON object has no key twice. */
  predicate IsMapping(m: Mapping)
  {
    forall i, j :: 0 <= i < j < |m| ==> m[i].topic != m[j].topic
  }

  /** No topic is left with an empty list. */
  predicate NoEmptyTopics(m: Mapping)
  {
    forall i :: 0 <= i < |m| ==> m[i].ids != []
  }

  predicate HasId(m: Mapping, id: string)
  {
    exists i :: 0 <= i < |m| && id in m[i].ids
  }

  function TotalIds(m: Mapping): nat
  {
    if m == [] then 0 else |m[0].ids| + TotalIds(m[1..])
  }

  /** How often `id` occurs, over all topics. */
  function Occurrences(m: Mapping, id: string): nat
  {
    if m == [] then 0 else multiset(m[0].ids)[id] + Occurrences(m[1..], id)
  }

  function Pairs(e: Entry, term: string): (r: seq<(CourseId, string)>)
  {
    seq(|e.ids|, j requires 0 <= j < |e.ids| => (CourseId(e.ids[j], term), e.topic))
  }

  /** `__build_course_list`: a (course, topic) pair per CRN, topic by topic, then in list order. */
  function Flatten(m: Mapping, term: string): (r: seq<(CourseId, string)>)
    ensures |r| == TotalIds(m)
    ensures forall p :: p in r ==> p.0.term == term
  {
    if m == [] then [] else Pairs(m[0], term) + Flatten(m[1..], term)
  }

  lemma {:induction false} TotalIdsAppend(a: Mapping, b: Mapping)
    ensures TotalIds(a + b) == TotalIds(a) + TotalIds(b)
  {
    if a != [] {
      assert (a + b)[0] == a[0] && (a + b)[1..] == a[1..] + b;
      TotalIdsAppend(a[1..], b);
    } else {
      assert a + b == b;
    }
  }

  lemma {:induction false} OccurrencesAppend(a: Mapping, b: Mapping, id: string)
    ensures Occurrences(a + b, id) == Occurrences(a, id) + Occurrences(b, id)
  {
    if a != [] {
      assert (a + b)[0] == a[0] && (a + b)[1..] == a[1..] + b;
      OccurrencesAppend(a[1..], b, id);
    } else {
      assert a + b == b;
    }
  }

  lemma {:induction false} FlattenAppend(a: Mapping, b: Mapping, term: string)
    ensures Flatten(a + b, term) == Flatten(a, term) + Flatten(b, term)
  {
    if a != [] {
      assert (a + b)[0] == a[0] && (a + b)[1..] == a[1..] + b;
      FlattenAppend(a[1..], b, term);
    } else {
      assert a + b == b;
    }
  }

  /** CRN `j` of topic `k` sits in the flattening right after every CRN of the earlier topics. */
  lemma FlattenAt(m: Mapping, term: string, k: nat, j: nat)
    requires k < |m| && j < |m[k].ids|
    ensures TotalIds(m[..k]) + j < |Flatten(m, term)|
    ensures Flatten(m, term)[TotalIds(m[..k]) + j] == (CourseId(m[k].ids[j], term), m[k].topic)
  {
    assert m == m[..k] + [m[k]] + m[k + 1..];
    FlattenAppend(m[..k] + [m[k]], m[k + 1..], term);
    FlattenAppend(m[..k], [m[k]], term);
    assert Flatten([m[k]], term) == Pairs(m[k], term);
  }

  /** The pair of each CRN of each topic occurs in the flattening. */
  lemma FlattenContains(m: Mapping, term: string, k: nat, id: string)
    requires k < |m| && id in m[k].ids
    ensures (CourseId(id, term), m[k].topic) in Flatten(m, term)
  {
    var j :| 0 <= j < |m[k].ids| && m[k].ids[j] == id;
    FlattenAt(m, term, k, j);
  }

  /** `list.remove`: drops the first occurrence of `id`, keeping the others in order. */
  function RemoveFirst(ids: seq<string>, id: string): (r: seq<string>)
    ensures id !in ids ==> r == ids
    ensures id in ids ==> |r| == |ids| - 1
  {
    if ids == [] then []
    else
      assert ids == [ids[0]] + ids[1..];
      if ids[0] == id then ids[1..] else [ids[0]] + RemoveFirst(ids[1..], id)
  }

  /** The removed occurrence is the first one; everything before and after it is kept. */
  lemma {:induction false} RemoveFirstAt(ids: seq<string>, id: string, k: nat)
    requires k < |ids| && ids[k] == id
    requires forall j :: 0 <= j < k ==> ids[j] != id
    ensures RemoveFirst(ids, id) == ids[..k] + ids[k + 1..]
  {
    if k > 0 {
      var t := ids[1..];
      assert ids[0] != id;
      assert ids == [ids[0]] + t;
      assert forall j :: 0 <= j < k - 1 ==> t[j] == ids[j + 1];
      RemoveFirstAt(t, id, k - 1);
      assert t[..k - 1] == ids[1..k];
      assert t[k..] == ids[k + 1..];
      assert [ids[0]] + ids[1..k] == ids[..k];
    }
  }

  /** `list.remove` takes away one occurrence of `id` and nothing else. */
  lemma {:induction false} RemoveFirstMultiset(ids: seq<string>, id: string)
    ensures multiset(RemoveFirst(ids, id)) == multiset(ids) - multiset{id}
  {
    if ids != [] {
      assert ids == [ids[0]] + ids[1..];
      RemoveFirstMultiset(ids[1..], id);
    }
  }

  /** The topic after its list has shrunk: gone if its list is now empty. */
  function Pruned(topic: string, ids: seq<string>): Mapping
  {
    if ids == [] then [] else [Entry(topic, ids)]
  }

  /** The effect of `remove_course` on the stored mapping, and whether anything was removed:
      the first topic holding `id` loses one occurrence of it and is dropped if emptied. */
  function Removal(m: Mapping, id: string): (r: (Mapping, bool))
    ensures r.1 <==> HasId(m, id)
    ensures !r.1 ==> r.0 == m
  {
    if m == [] then ([], false)
    else if id in m[0].ids then
      (Pruned(m[0].topic, RemoveFirst(m[0].ids, id)) + m[1..], true)
    else
      var (tail, updated) := Removal(m[1..], id);
      assert HasId(m[1..], id) ==> HasId(m, id) by {
        if HasId(m[1..], id) {
          var i :| 0 <= i < |m[1..]| && id in m[1..][i].ids;
          assert id in m[i + 1].ids;
        }
      }
      assert HasId(m, id) ==> HasId(m[1..], id) by {
        if HasId(m, id) {
          var i :| 0 <= i < |m| && id in m[i].ids;
          assert i > 0 && id in m[1..][i - 1].ids;
        }
      }
      assert ([m[0]] + tail)[1..] == tail;
      ([m[0]] + tail, updated)
  }

  /** Only the first topic holding `id` changes; the topics before and after it are kept
      in place and in order. */
  lemma {:induction false} RemovalAt(m: Mapping, id: string, k: nat)
    requires k < |m| && id in m[k].ids
    requires forall j :: 0 <= j < k ==> id !in m[j].ids
    ensures Removal(m, id) == (m[..k] + Pruned(m[k].topic, RemoveFirst(m[k].ids, id)) + m[k + 1..], true)
  {
    if k > 0 {
      var t := m[1..];
      assert id !in m[0].ids;
      assert t[k - 1] == m[k];
      assert forall j :: 0 <= j < k - 1 ==> t[j] == m[j + 1];
      RemovalAt(t, id, k - 1);
      assert Removal(m, id) == ([m[0]] + Removal(t, id).0, true);
      assert t[..k - 1] == m[1..k];
      assert t[k..] == m[k + 1..];
      assert [m[0]] + m[1..k] == m[..k];
      var p := Pruned(m[k].topic, RemoveFirst(m[k].ids, id));
      assert Removal(t, id).0 == t[..k - 1] + p + t[k..];
      assert [m[0]] + (m[1..k] + p + m[k + 1..]) == m[..k] + p + m[k + 1..];
    } else {
      var p := Pruned(m[0].topic, RemoveFirst(m[0].ids, id));
      assert Removal(m, id) == (p + m[1..], true);
      assert m[..0] + p + m[1..] == p + m[1..];
    }
  }

  /** A removal takes away exactly one CRN occurrence, and only one of `id`. */
  lemma {:induction false} RemovalCounts(m: Mapping, id: string)
    requires HasId(m, id)
    ensures TotalIds(Removal(m, id).0) == TotalIds(m) - 1
    ensures Occurrences(Removal(m, id).0, id) == Occurrences(m, id) - 1
  {
    var e := m[0];
    if id in e.ids {
      var rest := RemoveFirst(e.ids, id);
      RemoveFirstMultiset(e.ids, id);
      TotalIdsAppend(Pruned(e.topic, rest), m[1..]);
      OccurrencesAppend(Pruned(e.topic, rest), m[1..], id);
      assert multiset(e.ids)[id] >= 1;
      if rest != [] {
        assert [Entry(e.topic, rest)][1..] == [];
      }
    } else {
      assert HasId(m[1..], id) by {
        var i :| 0 <= i < |m| && id in m[i].ids;
        assert i > 0 && id in m[1..][i - 1].ids;
      }
      RemovalCounts(m[1..], id);
      var tail := Removal(m[1..], id).0;
      assert ([e] + tail)[0] == e && ([e] + tail)[1..] == tail;
    }
  }

  /** Removal keeps the stored keys distinct. */
  lemma RemovalKeepsMapping(m: Mapping, id: string)
    requires IsMapping(m)
    ensures IsMapping(Removal(m, id).0)
  {
    if HasId(m, id) {
      var k := FirstWith(m, id);
      RemovalAt(m, id, k);
    }
  }

  /** Removal never leaves a topic with an empty list. */
  lemma RemovalKeepsNoEmptyTopics(m: Mapping, id: string)
    requires NoEmptyTopics(m)
    ensures NoEmptyTopics(Removal(m, id).0)
  {
    if HasId(m, id) {
      var k := FirstWith(m, id);
      RemovalAt(m, id, k);
    }
  }

  /** The index of the first topic whose list holds `id`. */
  function FirstWith(m: Mapping, id: string): (k: nat)
    requires HasId(m, id)
    ensures k < |m| && id in m[k].ids
    ensures forall j :: 0 <= j < k ==> id !in m[j].ids
  {
    if id in m[0].ids then 0
    else
      assert HasId(m[1..], id) by {
        var i :| 0 <= i < |m| && id in m[i].ids;
        assert i > 0 && id in m[1..][i - 1].ids;
      }
      FirstWith(m[1..], id) + 1
  }

  /** Once a CRN watched once has been removed, removing it again changes nothing. */
  lemma {:induction false} RemoveTwiceIsNoop(m: Mapping, id: string)
    requires Occurrences(m, id) <= 1
    ensures var once := Removal(m, id).0; Removal(once, id) == (once, false)
  {
    if HasId(m, id) {
      RemovalCounts(m, id);
      NoOccurrenceNoId(Removal(m, id).0, id);
    }
  }

  lemma {:induction false} NoOccurrenceNoId(m: Mapping, id: string)
    requires Occurrences(m, id) == 0
    ensures !HasId(m, id)
  {
    if m != [] {
      NoOccurrenceNoId(m[1..], id);
      assert id !in m[0].ids;
      forall i | 0 <= i < |m|
        ensures id !in m[i].ids
      {
        if i > 0 {
          assert m[i] == m[1..][i - 1];
        }
      }
    }
  }

  /** After a removal the rebuilt pair list is the flattening of the mapping as it stood
      before the write: it still holds the removed pair and has one pair too many. */
  lemma StaleRebuildKeepsRemovedPair(m: Mapping, id: string, term: string)
    requires HasId(m, id)
    ensures var k := FirstWith(m, id);
      (CourseId(id, term), m[k].topic) in Flatten(m, term)
    ensures |Flatten(m, term)| == |Flatten(Removal(m, id).0, term)| + 1
    ensures Flatten(m, term) != Flatten(Removal(m, id).0, term)
  {
    FlattenContains(m, term, FirstWith(m, id), id);
    RemovalCounts(m, id);
  }

  class CoursesConfig {
    var path: string
    var term: string
    var courses: seq<(CourseId, string)>
    /** The JSON object currently stored in the file at `path`. */
    var file: Mapping
    /** How many times the file at `path` has been rewritten. */
    ghost var writes: nat

    /** The file holds a JSON object, so its topic keys are distinct; flattening and
        removal do not rely on this, but removal keeps it. */
    ghost predicate Valid()
      reads this
    {
      IsMapping(file)
    }

    /** `contents` is what the file at `path` holds when it is read. */
    constructor (path: string, term: string, contents: Mapping)
      requires IsMapping(contents)
      ensures Valid()
      ensures this.path == path && this.term == term && file == contents && writes == 0
      ensures courses == Flatten(contents, term)
    {
      this.path := path;
      this.term := term;
      file := contents;
      writes := 0;
      courses := Flatten(contents, term);
    }

    /** `remove_course`: re-reads the file, drops the first occurrence of `courseId` from
        the first topic that holds it, rebuilds `courses` by reading the file again (before
        the write), and writes the file only if something was removed. */
    method RemoveCourse(courseId: string)
      requires Valid()
      modifies this
      ensures Valid()
      ensures path == old(path) && term == old(term)
      ensures file == Removal(old(file), courseId).0
      ensures writes == old(writes) + (if HasId(old(file), courseId) then 1 else 0)
      ensures courses == Flatten(old(file), term)
    {
      var data := file;
      var updated := false;
      var i := 0;
      while i < |data|
        invariant 0 <= i <= |data| && data == file && !updated
        invariant forall j :: 0 <= j < i ==> courseId !in data[j].ids
      {
        if courseId in data[i].ids {
          var topic := data[i].topic;
          var courseIds := RemoveFirst(data[i].ids, courseId);
          RemovalAt(file, courseId, i);
          data := data[i := Entry(topic, courseIds)];
          updated := true;
          if courseIds == [] {
            data := data[..i] + data[i + 1..];
          }
          assert data == Removal(file, courseId).0;
          break;
        }
        i := i + 1;
      }
      assert updated <==> HasId(file, courseId);
      courses := Flatten(file, term);
      if updated {
        RemovalKeepsMapping(file, courseId);
        file := data;
        writes := writes + 1;
      }
    }
  }
}
