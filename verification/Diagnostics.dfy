/** A capture: names are registered while sources are collected, and every file is rendered once all names are known. */
module Diagnostics {
  import opened Wrappers
  import opened AliasNames

  const SOURCE_LIMIT := 262_144
  const TOTAL_LIMIT := 8 * 1024 * 1024

  /** `out` is `data` with the markers replaced by the aliases of these names. */
  ghost predicate IsRendering(keys: seq<Identity>, data: string, out: string) {
    exists counts: seq<nat>, table ::
      |counts| == |keys| && Chosen(keys, counts, |keys|) && Replaces(table, Aliases(keys, counts))
        && out == Rendered(data, table)
  }

  lemma TableIsUnique(a: map<string, string>, b: map<string, string>, names: seq<string>)
    requires Replaces(a, names) && Replaces(b, names)
    ensures a == b
  {
    assert forall m :: m in a <==> m in b;
  }

  /** Rendering has one result: an identity has the same alias in every file. */
  lemma RenderingIsUnique(keys: seq<Identity>, data: string, a: string, b: string)
    requires IsRendering(keys, data, a) && IsRendering(keys, data, b)
    ensures a == b
  {
    var c: seq<nat>, s :|
      |c| == |keys| && Chosen(keys, c, |keys|) && Replaces(s, Aliases(keys, c)) && a == Rendered(data, s);
    var d: seq<nat>, t :|
      |d| == |keys| && Chosen(keys, d, |keys|) && Replaces(t, Aliases(keys, d)) && b == Rendered(data, t);
    SameAliases(keys, c, d);
    TableIsUnique(s, t, Aliases(keys, c));
  }

  lemma SameAliases(keys: seq<Identity>, c: seq<nat>, d: seq<nat>)
    requires |c| == |keys| && |d| == |keys| && Chosen(keys, c, |keys|) && Chosen(keys, d, |keys|)
    ensures Aliases(keys, c) == Aliases(keys, d)
  {
    ChoiceIsUnique(keys, c, d, |keys|);
  }

  /** The names are pairwise distinct and differ from all names of the capture, without case and trailing dots. */
  ghost predicate Anonymous(keys: seq<Identity>, names: seq<string>) {
    && |names| == |keys| && (forall i, j :: 0 <= i < j < |names| ==> names[i] != names[j])
    && forall i, j :: 0 <= i < |names| && 0 <= j < |keys| ==> Norm(names[i]) != Norm(keys[j].name)
  }

  lemma AliasesAreAnonymous(keys: seq<Identity>, counts: seq<nat>)
    requires |counts| == |keys| && Chosen(keys, counts, |keys|)
    ensures Anonymous(keys, Aliases(keys, counts))
  {
    forall i, j | 0 <= i < |keys| && 0 <= j < |keys|
      ensures i < j ==> Aliases(keys, counts)[i] != Aliases(keys, counts)[j]
      ensures Norm(Aliases(keys, counts)[i]) != Norm(keys[j].name)
    {
      AliasesAreFresh(keys, counts, i, j);
    }
  }

  /** A rendered file of text and markers has the text unchanged, and an anonymous alias for every name of the capture.
      A marker that was never handed out stays. */
  lemma RenderedFile(keys: seq<Identity>, pieces: seq<Piece>, out: string)
    requires WellFormed(pieces) && IsRendering(keys, Written(pieces, []), out)
    ensures exists names: seq<string> :: Anonymous(keys, names) && out == Written(pieces, names)
  {
    var data := Written(pieces, []);
    var counts: seq<nat>, table :| |counts| == |keys| && Chosen(keys, counts, |keys|)
      && Replaces(table, Aliases(keys, counts)) && out == Rendered(data, table);
    RenderingRenames(pieces, Aliases(keys, counts), table);
    AliasesAreAnonymous(keys, counts);
  }

  function Total(files: seq<Option<string>>): nat {
    if files == [] then 0
    else Total(files[..|files| - 1]) + if files[|files| - 1].Some? then |files[|files| - 1].value| else 0
  }

  function Decision(data: string, total: nat): Option<string> {
    if |data| <= SOURCE_LIMIT && total + |data| <= TOTAL_LIMIT then Some(data) else None
  }

  /** A source is kept if its own size and the total stay within the limits. */
  ghost predicate Kept(evidence: seq<string>, files: seq<Option<string>>) {
    && |files| == |evidence|
    && forall i :: 0 <= i < |files| ==> files[i] == Decision(evidence[i], Total(files[..i]))
  }

  ghost predicate WithinLimits(files: seq<Option<string>>) {
    Total(files) <= TOTAL_LIMIT && forall i :: 0 <= i < |files| && files[i].Some? ==> |files[i].value| <= SOURCE_LIMIT
  }

  lemma KeptNext(evidence: seq<string>, files: seq<Option<string>>, i: nat)
    requires i < |evidence| && Kept(evidence[..i], files) && WithinLimits(files)
    ensures var next := files + [Decision(evidence[i], Total(files))];
            && Kept(evidence[..i + 1], next) && WithinLimits(next)
            && Total(next) == Total(files) + if next[i].Some? then |evidence[i]| else 0
  {
    var next := files + [Decision(evidence[i], Total(files))];
    assert next[..|next| - 1] == files;
    forall k | 0 <= k < i + 1
      ensures next[k] == Decision(evidence[..i + 1][k], Total(next[..k]))
    {
      if k < i {
        assert next[..k] == files[..k] && next[k] == files[k] && evidence[..i + 1][k] == evidence[..i][k];
      }
    }
  }

  /** Collects the sources that fit. */
  method Collect(evidence: seq<string>) returns (files: seq<Option<string>>)
    ensures Kept(evidence, files) && WithinLimits(files)
    ensures |files| == |evidence| && forall i :: 0 <= i < |files| ==>
      files[i] == if |evidence[i]| <= 262144 && Total(files[..i]) + |evidence[i]| <= 8388608 then Some(evidence[i])
                  else None
  {
    files := [];
    var total := 0;
    for i := 0 to |evidence|
      invariant Kept(evidence[..i], files) && WithinLimits(files) && total == Total(files)
    {
      var file := Decision(evidence[i], total);
      KeptNext(evidence, files, i);
      files := files + [file];
      if file.Some? { total := total + |file.value|; }
    }
    assert evidence[..|evidence|] == evidence;
  }

  lemma {:induction false} SmallerTotal(a: seq<Option<string>>, b: seq<Option<string>>)
    requires |a| == |b|
    requires forall i :: 0 <= i < |a| ==> (a[i].Some? <==> b[i].Some?) && (a[i].Some? ==> |a[i].value| <= |b[i].value|)
    ensures Total(a) <= Total(b)
  {
    if a == [] {
    } else {
      SmallerTotal(a[..|a| - 1], b[..|b| - 1]);
    }
  }

  class Projection {
    const anonymize: bool

    /** The registered names in order; name number `i` has marker number `i + 1`. */
    var keys: seq<Identity>
    var markers: map<Identity, string>

    ghost predicate Valid()
      reads this
    {
      && |markers| == |keys| && (forall i, j :: 0 <= i < j < |keys| ==> keys[i] != keys[j])
      && (forall k :: k in markers <==> k in keys)
      && forall i :: 0 <= i < |keys| ==> markers[keys[i]] == Marker(i + 1)
    }

    constructor (anonymize: bool)
      ensures Valid() && keys == [] && this.anonymize == anonymize
    {
      this.anonymize, keys, markers := anonymize, [], map[];
    }

    /** The name is registered, and this is its marker. */
    ghost predicate Registered(key: Identity, marker: string)
      reads this
    {
      exists i :: 0 <= i < |keys| && keys[i] == key && marker == Marker(i + 1)
    }

    /** Gives a name its marker. */
    method Register(key: Identity) returns (marker: string)
      requires Valid()
      modifies this`keys, this`markers
      ensures Valid() && Registered(key, marker)
      ensures keys == if key in old(keys) then old(keys) else old(keys) + [key]
    {
      if key !in markers {
        markers := markers[key := Marker(|markers| + 1)];
        keys := keys + [key];
        assert keys[|keys| - 1] == key;
      }
      marker := markers[key];
    }

    /** Accepts a name. Addresses stand for themselves; otherwise, when anonymizing, the name is registered and its
        marker returned. Markers never change. `address` is the address that the name may be. */
    method Identifier(value: string, kind: Kind, address: Option<string>) returns (r: Option<string>)
      requires Valid()
      modifies this`keys, this`markers
      ensures Valid()
      ensures r.Some? <==>
        && 1 <= |value| <= 253 && value[0] !in ".-"
        && forall i :: 0 <= i < |value| ==>
             'a' <= value[i] <= 'z' || 'A' <= value[i] <= 'Z' || '0' <= value[i] <= '9' || value[i] in "_.-"
      ensures r.Some? && kind.Hostname? && address.Some? ==> r == address && keys == old(keys)
      ensures r.Some? && !(kind.Hostname? && address.Some?) && !anonymize ==> r.value == value && keys == old(keys)
      ensures r.Some? && !(kind.Hostname? && address.Some?) && anonymize ==>
        Registered(Identity(kind, if kind.Hostname? then Norm(value) else value), r.value)
      ensures r.Some? && !(kind.Hostname? && address.Some?) && anonymize ==> IsReserved(keys, Norm(value))
      ensures keys == old(keys) || keys == old(keys) + [KeyOf(kind, value)]
    {
      if !IsToken(value) { return None; }
      if kind.Hostname? && address.Some? { return address; }
      if !anonymize { return Some(value); }
      var marker := Register(KeyOf(kind, value));
      NormTwice(value);
      r := Some(marker);
    }

    /** Replaces the markers of one file. Below 10^10 names the file does not grow. */
    method Render(data: string) returns (out: string)
      requires Valid()
      ensures IsRendering(keys, data, out)
      ensures |keys| < NAME_LIMIT ==> |out| <= |data|
    {
      var counts := Choose(keys);
      var table := Tabulate(counts);
      out := Rendered(data, table);
      if |keys| < NAME_LIMIT {
        NoAliasLonger(keys, counts, table);
        RenderingShrinks(data, table);
      }
    }

    method Tabulate(counts: seq<nat>) returns (table: map<string, string>)
      requires Valid() && |counts| == |keys|
      ensures Replaces(table, Aliases(keys, counts))
    {
      table := map[];
      for i := 0 to |keys|
        invariant Replaces(table, Aliases(keys, counts)[..i])
      {
        TableGrows(table, Aliases(keys, counts), i);
        table := table[Quoted(markers[keys[i]]) := Quoted(Candidate(keys[i].kind, counts[i]))];
      }
      assert Aliases(keys, counts)[..|keys|] == Aliases(keys, counts);
    }

    method RenderFile(file: Option<string>) returns (out: Option<string>)
      requires Valid()
      ensures RenderedAs(keys, file, out)
    {
      if file.None? { return None; }
      var rendered := Render(file.value);
      out := Some(rendered);
    }

    /** Renders all collected files, after the last name is known. What was within the limits stays so. */
    method RenderAll(files: seq<Option<string>>) returns (out: seq<Option<string>>)
      requires Valid() && WithinLimits(files)
      ensures AllRendered(keys, files, out)
      ensures |keys| < NAME_LIMIT ==> WithinLimits(out)
    {
      out := [];
      for i := 0 to |files|
        invariant AllRendered(keys, files[..i], out)
      {
        var rendered := RenderFile(files[i]);
        AllRenderedNext(keys, files, out, i, rendered);
        out := out + [rendered];
      }
      assert files[..|files|] == files;
      if |keys| < NAME_LIMIT { LimitsKept(keys, files, out); }
    }
  }

  /** A file that was kept is rendered, and does not grow. */
  ghost predicate RenderedAs(keys: seq<Identity>, file: Option<string>, out: Option<string>) {
    if file.None? then out.None?
    else out.Some? && IsRendering(keys, file.value, out.value) && (|keys| < NAME_LIMIT ==> |out.value| <= |file.value|)
  }

  ghost predicate AllRendered(keys: seq<Identity>, files: seq<Option<string>>, out: seq<Option<string>>) {
    |out| == |files| && forall i :: 0 <= i < |files| ==> RenderedAs(keys, files[i], out[i])
  }

  lemma AllRenderedNext(keys: seq<Identity>, files: seq<Option<string>>, out: seq<Option<string>>, i: nat,
                        r: Option<string>)
    requires i < |files| && AllRendered(keys, files[..i], out) && RenderedAs(keys, files[i], r)
    ensures AllRendered(keys, files[..i + 1], out + [r])
  {
    forall k | 0 <= k < i + 1
      ensures RenderedAs(keys, files[..i + 1][k], (out + [r])[k])
    {
      if k < i { assert files[..i + 1][k] == files[..i][k] && (out + [r])[k] == out[k]; }
    }
  }

  lemma LimitsKept(keys: seq<Identity>, files: seq<Option<string>>, out: seq<Option<string>>)
    requires |keys| < NAME_LIMIT && WithinLimits(files) && AllRendered(keys, files, out)
    ensures WithinLimits(out)
  {
    forall i | 0 <= i < |files|
      ensures (out[i].Some? <==> files[i].Some?) && (out[i].Some? ==> |out[i].value| <= |files[i].value|)
    {
      assert RenderedAs(keys, files[i], out[i]);
    }
    SmallerTotal(out, files);
  }

  lemma TableGrows(table: map<string, string>, names: seq<string>, i: nat)
    requires i < |names| && Replaces(table, names[..i])
    ensures Replaces(table[Mark(i) := Quoted(names[i])], names[..i + 1])
  {
    var next := table[Mark(i) := Quoted(names[i])];
    forall k | 0 <= k < i + 1
      ensures Mark(k) in next && next[Mark(k)] == Quoted(names[..i + 1][k])
    {
      if k < i {
        assert Mark(k) in table && table[Mark(k)] == Quoted(names[..i][k]);
        MarksDiffer(k, i);
      }
    }
    forall m | m in next
      ensures exists k :: 0 <= k < |names[..i + 1]| && m == Mark(k)
    {
      if m != Mark(i) {
        assert m in table;
      }
    }
  }

  lemma NoAliasLonger(keys: seq<Identity>, counts: seq<nat>, table: map<string, string>)
    requires |counts| == |keys| < NAME_LIMIT && Replaces(table, Aliases(keys, counts))
    requires forall i :: 0 <= i < |counts| ==> counts[i] <= 2 * |keys|
    ensures forall m :: m in table ==> |table[m]| <= |m|
  {
    forall m | m in table
      ensures |table[m]| <= |m|
    {
      var i :| 0 <= i < |keys| && m == Mark(i);
      AliasFitsMarker(keys[i].kind, counts[i], i);
    }
  }
}
