/** Whitelist enrolment as the detectors keep it: two parallel lists, the
    i-th name owning the i-th face encoding. face_detector_hybrid.py builds
    them from a {name: [encoding, ...]} dict, face_detector_yolov8_gpu.py
    extends them person by person with `[name] * len(encodings)`. */
module Enrolment {
  import opened Common

  /** A face encoding as face_recognition produces it (128 floats). */
  type Encoding = seq<real>

  /** The encodings obtained from a person's sample images, in order: for
      each image, the first face encoding found, or None when the download,
      the decoding or the face search failed. */
  function Found(outcomes: seq<Option<Encoding>>): (r: seq<Encoding>)
    ensures |r| <= |outcomes|
    ensures forall e :: e in r <==> Some(e) in outcomes
  {
    if outcomes == [] then []
    else
      var init := Found(outcomes[..|outcomes| - 1]);
      var last := outcomes[|outcomes| - 1];
      assert outcomes == outcomes[..|outcomes| - 1] + [last];
      if last.Some? then init + [last.value] else init
  }

  /** One person's encodings paired with the name, in list order. */
  function Owned(name: string, encs: seq<Encoding>): (r: seq<(string, Encoding)>)
    ensures |r| == |encs|
    ensures forall i :: 0 <= i < |r| ==> r[i] == (name, encs[i])
  {
    if encs == [] then [] else Owned(name, encs[..|encs| - 1]) + [(name, encs[|encs| - 1])]
  }

  /** Every person's pairs, person after person. */
  function Flat(people: seq<(string, seq<Encoding>)>): seq<(string, Encoding)>
  {
    if people == [] then [] else Flat(people[..|people| - 1]) + Owned(people[|people| - 1].0, people[|people| - 1].1)
  }

  /** The number of encodings of all people together. */
  function TotalEncodings(people: seq<(string, seq<Encoding>)>): nat
  {
    if people == [] then 0 else TotalEncodings(people[..|people| - 1]) + |people[|people| - 1].1|
  }

  function Names(pairs: seq<(string, Encoding)>): (r: seq<string>)
    ensures |r| == |pairs| && forall i :: 0 <= i < |r| ==> r[i] == pairs[i].0
  {
    if pairs == [] then [] else Names(pairs[..|pairs| - 1]) + [pairs[|pairs| - 1].0]
  }

  function Encodings(pairs: seq<(string, Encoding)>): (r: seq<Encoding>)
    ensures |r| == |pairs| && forall i :: 0 <= i < |r| ==> r[i] == pairs[i].1
  {
    if pairs == [] then [] else Encodings(pairs[..|pairs| - 1]) + [pairs[|pairs| - 1].1]
  }

  /** One entry per encoding: the flattening loses and invents nothing. */
  lemma {:induction false} FlatLength(people: seq<(string, seq<Encoding>)>)
    ensures |Flat(people)| == TotalEncodings(people)
  {
    if people != [] {
      FlatLength(people[..|people| - 1]);
    }
  }

  /** Every flattened entry is one of its owner's encodings under the
      owner's name. */
  lemma {:induction false} FlatOwner(people: seq<(string, seq<Encoding>)>, i: int)
    requires 0 <= i < |Flat(people)|
    ensures exists p :: 0 <= p < |people| && Flat(people)[i].0 == people[p].0 && Flat(people)[i].1 in people[p].1
  {
    var init := people[..|people| - 1];
    var last := people[|people| - 1];
    if i < |Flat(init)| {
      FlatOwner(init, i);
      var p :| 0 <= p < |init| && Flat(init)[i].0 == init[p].0 && Flat(init)[i].1 in init[p].1;
      assert people[p] == init[p];
    } else {
      var k := i - |Flat(init)|;
      assert Flat(people)[i] == (last.0, last.1[k]);
    }
  }

  /** Every encoding of every person appears in the flattened list under
      that person's name. */
  lemma {:induction false} FlatComplete(people: seq<(string, seq<Encoding>)>, p: int, k: int)
    requires 0 <= p < |people| && 0 <= k < |people[p].1|
    ensures (people[p].0, people[p].1[k]) in Flat(people)
  {
    var init := people[..|people| - 1];
    if p < |people| - 1 {
      assert init[p] == people[p];
      FlatComplete(init, p, k);
    } else {
      assert Owned(people[p].0, people[p].1)[k] == (people[p].0, people[p].1[k]);
    }
  }

  /** Flattening distributes over concatenation, so a person whose list is
      empty contributes nothing. */
  lemma {:induction false} FlatAppend(a: seq<(string, seq<Encoding>)>, b: seq<(string, seq<Encoding>)>)
    ensures Flat(a + b) == Flat(a) + Flat(b)
    decreases |b|
  {
    if b == [] {
      assert a + b == a;
    } else {
      var init, last := b[..|b| - 1], b[|b| - 1];
      var ab := a + b;
      assert ab[..|ab| - 1] == a + init && ab[|ab| - 1] == last;
      FlatAppend(a, init);
      assert Flat(ab) == Flat(a + init) + Owned(last.0, last.1);
      assert Flat(b) == Flat(init) + Owned(last.0, last.1);
      AppendAssoc(Flat(a), Flat(init), Owned(last.0, last.1));
    }
  }

  lemma NamesAppend(a: seq<(string, Encoding)>, b: seq<(string, Encoding)>)
    ensures Names(a + b) == Names(a) + Names(b)
    ensures Encodings(a + b) == Encodings(a) + Encodings(b)
  {
    assert Names(a + b) == Names(a) + Names(b) by {
      forall i | 0 <= i < |a + b|
        ensures Names(a + b)[i] == (Names(a) + Names(b))[i]
      {
        if i >= |a| {
          assert (a + b)[i] == b[i - |a|];
        }
      }
    }
    assert Encodings(a + b) == Encodings(a) + Encodings(b) by {
      forall i | 0 <= i < |a + b|
        ensures Encodings(a + b)[i] == (Encodings(a) + Encodings(b))[i]
      {
        if i >= |a| {
          assert (a + b)[i] == b[i - |a|];
        }
      }
    }
  }

  /** Adding one person appends that person's pairs: `extend(encodings)`
      and `extend([name] * len(encodings))`. */
  lemma FlatSnoc(people: seq<(string, seq<Encoding>)>, name: string, encs: seq<Encoding>)
    ensures Flat(people + [(name, encs)]) == Flat(people) + Owned(name, encs)
    ensures Names(Flat(people + [(name, encs)])) == Names(Flat(people)) + seq(|encs|, _ => name)
    ensures Encodings(Flat(people + [(name, encs)])) == Encodings(Flat(people)) + encs
  {
    assert (people + [(name, encs)])[..|people|] == people;
    NamesAppend(Flat(people), Owned(name, encs));
    assert Names(Owned(name, encs)) == seq(|encs|, _ => name);
    assert Encodings(Owned(name, encs)) == encs;
  }
}
