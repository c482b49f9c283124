/** The folder classifier of the add-product page (`handleFilesSelection` in
    app/admin/ajouter-produit/page.js): a folder picked in the browser arrives as a
    flat list of files with relative paths `produit/image.jpg` and
    `produit/motif/couleur.png`; the classifier turns it into a product name, one
    principal image, and an insertion-ordered map from motif name to its layers. */
module ProductFolder {
  import opened Common

  // ---------------------------------------------------------------------------
  // `String.prototype.split` on a one-character separator

  /** `s.split(sep)`: the maximal pieces between separators, in order; never empty. */
  function Split(s: string, sep: char): (parts: seq<string>)
    ensures |parts| >= 1
    ensures forall i :: 0 <= i < |parts| ==> sep !in parts[i]
    decreases |s|
  {
    if s == [] then [[]]
    else
      var rest := Split(s[1..], sep);
      if s[0] == sep then [[]] + rest
      else [[s[0]] + rest[0]] + rest[1..]
  }

  /** `parts.join(sep)`, the inverse of `Split`. */
  function Join(parts: seq<string>, sep: char): string
    requires |parts| >= 1
  {
    if |parts| == 1 then parts[0] else parts[0] + [sep] + Join(parts[1..], sep)
  }

  lemma {:induction false} JoinSplit(s: string, sep: char)
    ensures Join(Split(s, sep), sep) == s
    decreases |s|
  {
    if s != [] {
      var rest := Split(s[1..], sep);
      JoinSplit(s[1..], sep);
      if s[0] == sep {
        assert ([[]] + rest)[1..] == rest;
      } else {
        var parts := Split(s, sep);
        assert parts[0] == [s[0]] + rest[0];
        if |rest| == 1 {
          assert s == [s[0]] + s[1..];
        } else {
          assert parts[1..] == rest[1..];
          assert Join(rest, sep) == rest[0] + [sep] + Join(rest[1..], sep);
          assert s == [s[0]] + s[1..];
        }
      }
    }
  }

  lemma {:induction false} SplitNoSepPrefix(p: string, t: string, sep: char)
    requires sep !in p
    ensures Split(p + t, sep) == [p + Split(t, sep)[0]] + Split(t, sep)[1..]
    decreases |p|
  {
    if p != [] {
      assert (p + t)[0] == p[0];
      assert (p + t)[1..] == p[1..] + t;
      SplitNoSepPrefix(p[1..], t, sep);
      assert [p[0]] + (p[1..] + Split(t, sep)[0]) == p + Split(t, sep)[0];
    } else {
      var parts := Split(t, sep);
      assert p + t == t;
      assert p + parts[0] == parts[0];
      assert [parts[0]] + parts[1..] == parts;
    }
  }

  /** Splitting a join of separator-free pieces gives the pieces back. */
  lemma {:induction false} SplitJoin(parts: seq<string>, sep: char)
    requires |parts| >= 1
    requires forall i :: 0 <= i < |parts| ==> sep !in parts[i]
    ensures Split(Join(parts, sep), sep) == parts
  {
    if |parts| == 1 {
      SplitNoSepPrefix(parts[0], [], sep);
      assert parts[0] + [] == parts[0];
    } else {
      var tail := [sep] + Join(parts[1..], sep);
      assert Join(parts, sep) == parts[0] + tail;
      SplitNoSepPrefix(parts[0], tail, sep);
      SplitJoin(parts[1..], sep);
      assert tail[1..] == Join(parts[1..], sep);
      assert Split(tail, sep) == [[]] + parts[1..];
      assert parts[0] + [] == parts[0];
      assert parts == [parts[0]] + parts[1..];
    }
  }

  // ---------------------------------------------------------------------------
  // `name.replace(/\.[^/.]+$/, '')`

  /** The regular expression matches at `i`: a dot there, then at least one
      character, none of them a dot or a slash, up to the end of the string. */
  predicate IsExtensionAt(s: string, i: int) {
    && 0 <= i < |s| - 1
    && s[i] == '.'
    && forall j :: i < j < |s| ==> s[j] != '.' && s[j] != '/'
  }

  /** Length of the longest suffix free of dots and slashes. */
  function TailLen(s: string): (n: nat)
    ensures n <= |s|
    ensures forall j :: |s| - n <= j < |s| ==> s[j] != '.' && s[j] != '/'
    ensures n < |s| ==> s[|s| - n - 1] == '.' || s[|s| - n - 1] == '/'
  {
    if s == [] || s[|s| - 1] == '.' || s[|s| - 1] == '/' then 0
    else 1 + TailLen(s[..|s| - 1])
  }

  /** Removes the final `.ext` when the extension is non-empty; otherwise the
      name is kept. Since the match is anchored at the end, at most one position
      can match. */
  function StripExtension(s: string): (r: string)
    ensures forall i :: IsExtensionAt(s, i) ==> r == s[..i]
    ensures (forall i :: !IsExtensionAt(s, i)) ==> r == s
  {
    var t := TailLen(s);
    if 1 <= t < |s| && s[|s| - t - 1] == '.' then
      assert IsExtensionAt(s, |s| - t - 1);
      s[..|s| - t - 1]
    else
      assert forall i :: IsExtensionAt(s, i) ==> i == |s| - t - 1;
      s
  }

  lemma StripExtensionExamples()
    ensures StripExtension("rouge.png") == "rouge"
    ensures StripExtension("v.2.jpg") == "v.2"
    ensures StripExtension("noext") == "noext"
    ensures StripExtension("a.") == "a."
    ensures StripExtension(".png") == ""
  {
    assert IsExtensionAt("rouge.png", 5);
    assert IsExtensionAt("v.2.jpg", 3);
    assert forall i :: !IsExtensionAt("noext", i);
    assert forall i :: !IsExtensionAt("a.", i);
    assert IsExtensionAt(".png", 0);
  }

  /** A name without a dot is kept as it is. */
  lemma StripExtensionNoDot(s: string)
    requires '.' !in s
    ensures StripExtension(s) == s
  {
  }

  // ---------------------------------------------------------------------------
  // The classified structure

  /** A selected file; only its relative path matters to the classifier. */
  datatype FileEntry = FileEntry(relativePath: string)

  /** `{ couleur: calqueNom, file }`. */
  datatype Layer = Layer(couleur: string, file: FileEntry)

  /** One entry `motifs[name]` of the motif map. */
  datatype Motif = Motif(name: string, layers: seq<Layer>)

  /** `{ productName, imagePrincipale, motifs }`; the motif map is kept as a
      sequence in key insertion order. */
  datatype Structure = Structure(productName: string, imagePrincipale: Option<FileEntry>, motifs: seq<Motif>)

  const Empty := Structure("", None, [])

  function Names(ms: seq<Motif>): (r: seq<string>)
    ensures |r| == |ms|
    ensures forall i :: 0 <= i < |ms| ==> r[i] == ms[i].name
  {
    if ms == [] then [] else Names(ms[..|ms| - 1]) + [ms[|ms| - 1].name]
  }

  /** Index of the motif with key `name`, or -1. */
  function FindMotif(ms: seq<Motif>, name: string): (i: int)
    ensures -1 <= i < |ms|
    ensures i >= 0 ==> ms[i].name == name && forall j :: 0 <= j < i ==> ms[j].name != name
    ensures i == -1 ==> forall j :: 0 <= j < |ms| ==> ms[j].name != name
  {
    if ms == [] then -1
    else if ms[0].name == name then 0
    else
      var k := FindMotif(ms[1..], name);
      if k == -1 then -1 else k + 1
  }

  /** The layers under key `n`; none when the key is absent. */
  function LayersOf(ms: seq<Motif>, n: string): seq<Layer> {
    var i := FindMotif(ms, n);
    if i >= 0 then ms[i].layers else []
  }

  /** `if (!motifs[name]) motifs[name] = []; motifs[name].push(l)`. */
  function AddLayer(ms: seq<Motif>, name: string, l: Layer): (r: seq<Motif>)
    ensures Names(r) == if name in Names(ms) then Names(ms) else Names(ms) + [name]
    ensures forall n :: LayersOf(r, n) == LayersOf(ms, n) + (if n == name then [l] else [])
  {
    var i := FindMotif(ms, name);
    if i >= 0 then
      var r := ms[i := Motif(name, ms[i].layers + [l])];
      assert name in Names(ms) by { assert Names(ms)[i] == name; }
      forall n ensures LayersOf(r, n) == LayersOf(ms, n) + (if n == name then [l] else []) {
        FindMotifSameNames(ms, r, n);
      }
      r
    else
      var r := ms + [Motif(name, [l])];
      assert name !in Names(ms);
      forall n ensures LayersOf(r, n) == LayersOf(ms, n) + (if n == name then [l] else []) {
        FindMotifAppend(ms, Motif(name, [l]), n);
      }
      r
  }

  lemma {:induction false} FindMotifSameNames(a: seq<Motif>, b: seq<Motif>, n: string)
    requires |a| == |b| && forall j :: 0 <= j < |a| ==> a[j].name == b[j].name
    ensures FindMotif(a, n) == FindMotif(b, n)
  {
    if a != [] {
      FindMotifSameNames(a[1..], b[1..], n);
    }
  }

  lemma {:induction false} FindMotifAppend(ms: seq<Motif>, m: Motif, n: string)
    ensures FindMotif(ms + [m], n) == if FindMotif(ms, n) >= 0 then FindMotif(ms, n) else if m.name == n then |ms| else -1
  {
    if ms != [] {
      assert (ms + [m])[1..] == ms[1..] + [m];
      FindMotifAppend(ms[1..], m, n);
    } else {
      assert (ms + [m])[1..] == [];
    }
  }

  function TotalLayers(ms: seq<Motif>): nat {
    if ms == [] then 0 else TotalLayers(ms[..|ms| - 1]) + |ms[|ms| - 1].layers|
  }

  // ---------------------------------------------------------------------------
  // Classification

  function Segments(f: FileEntry): seq<string> {
    Split(f.relativePath, '/')
  }

  /** The `forEach` body applied to one file. */
  function Step(st: Structure, f: FileEntry): Structure {
    var parts := Segments(f);
    var name := if st.productName == "" then parts[0] else st.productName;
    if |parts| == 2 then
      Structure(name, Some(f), st.motifs)
    else if |parts| == 3 then
      Structure(name, st.imagePrincipale, AddLayer(st.motifs, parts[1], Layer(StripExtension(parts[2]), f)))
    else
      Structure(name, st.imagePrincipale, st.motifs)
  }

  /** The structure after the `forEach` over `files`, in order. */
  function Classify(files: seq<FileEntry>): Structure {
    if files == [] then Empty
    else Step(Classify(files[..|files| - 1]), files[|files| - 1])
  }

  /** The classifying loop: one pass over the files, updating the result. */
  method ClassifyFiles(files: seq<FileEntry>) returns (result: Structure)
    ensures result == Classify(files)
  {
    result := Structure("", None, []);
    var i := 0;
    while i < |files|
      invariant 0 <= i <= |files|
      invariant result == Classify(files[..i])
    {
      var file := files[i];
      assert files[..i + 1][..i] == files[..i];
      var parts := Split(file.relativePath, '/');
      if result.productName == "" {
        result := result.(productName := parts[0]);
      }
      if |parts| == 2 {
        result := result.(imagePrincipale := Some(file));
      } else if |parts| == 3 {
        var motif := parts[1];
        var calqueNom := StripExtension(parts[2]);
        result := result.(motifs := AddLayer(result.motifs, motif, Layer(calqueNom, file)));
      }
      i := i + 1;
    }
    assert files[..|files|] == files;
  }

  // ---------------------------------------------------------------------------
  // What the classification promises

  function FirstSegment(f: FileEntry): string { Segments(f)[0] }

  /** One file names the product only while it has no name yet. */
  lemma StepName(st: Structure, f: FileEntry)
    ensures Step(st, f).productName == if st.productName == "" then FirstSegment(f) else st.productName
  {
  }

  /** The product name is the first segment of the first file whose first
      segment is non-empty, or '' if there is none. */
  lemma {:induction false} ProductNameIsFirstNonEmpty(files: seq<FileEntry>)
    ensures (forall i :: 0 <= i < |files| ==> FirstSegment(files[i]) == "") ==> Classify(files).productName == ""
    ensures forall i :: 0 <= i < |files| && FirstSegment(files[i]) != ""
                        && (forall j :: 0 <= j < i ==> FirstSegment(files[j]) == "")
                        ==> Classify(files).productName == FirstSegment(files[i])
  {
    if files != [] {
      var init := files[..|files| - 1];
      ProductNameIsFirstNonEmpty(init);
      StepName(Classify(init), files[|files| - 1]);
      forall i | 0 <= i < |files| && FirstSegment(files[i]) != ""
                 && (forall j :: 0 <= j < i ==> FirstSegment(files[j]) == "")
        ensures Classify(files).productName == FirstSegment(files[i])
      {
        if i < |init| {
          assert init[i] == files[i];
          assert forall j :: 0 <= j < i ==> FirstSegment(init[j]) == "" by {
            forall j | 0 <= j < i ensures FirstSegment(init[j]) == "" { assert init[j] == files[j]; }
          }
        } else {
          assert forall j :: 0 <= j < |init| ==> FirstSegment(init[j]) == "" by {
            forall j | 0 <= j < |init| ensures FirstSegment(init[j]) == "" { assert init[j] == files[j]; }
          }
        }
      }
      if forall i :: 0 <= i < |files| ==> FirstSegment(files[i]) == "" {
        assert forall j :: 0 <= j < |init| ==> FirstSegment(init[j]) == "" by {
          forall j | 0 <= j < |init| ensures FirstSegment(init[j]) == "" { assert init[j] == files[j]; }
        }
        assert FirstSegment(files[|files| - 1]) == "";
      }
    }
  }

  /** Once a name is set, later files never change it. */
  lemma {:induction false} ProductNameStable(files: seq<FileEntry>, more: seq<FileEntry>)
    requires Classify(files).productName != ""
    ensures Classify(files + more).productName == Classify(files).productName
    decreases |more|
  {
    if more == [] {
      assert files + more == files;
    } else {
      var init := more[..|more| - 1];
      assert files + more == (files + init) + [more[|more| - 1]];
      assert (files + more)[..|files + more| - 1] == files + init;
      ProductNameStable(files, init);
      StepName(Classify(files + init), more[|more| - 1]);
    }
  }

  predicate TwoSegments(f: FileEntry) { |Segments(f)| == 2 }
  predicate ThreeSegments(f: FileEntry) { |Segments(f)| == 3 }

  /** One file sets the principal image exactly when it has two segments. */
  lemma StepImage(st: Structure, f: FileEntry)
    ensures Step(st, f).imagePrincipale == if TwoSegments(f) then Some(f) else st.imagePrincipale
  {
  }

  /** One file adds a motif key exactly when it has three segments and its
      motif is new. */
  lemma StepNames(st: Structure, f: FileEntry)
    ensures Names(Step(st, f).motifs)
         == if ThreeSegments(f) && Segments(f)[1] !in Names(st.motifs) then Names(st.motifs) + [Segments(f)[1]]
            else Names(st.motifs)
  {
  }

  /** The principal image is the last file with exactly two segments, and there
      is none when no file has two segments. */
  lemma {:induction false} PrincipalImageIsLastTwoSegmentFile(files: seq<FileEntry>)
    ensures (forall i :: 0 <= i < |files| ==> !TwoSegments(files[i])) ==> Classify(files).imagePrincipale.None?
    ensures forall i :: 0 <= i < |files| && TwoSegments(files[i])
                        && (forall j :: i < j < |files| ==> !TwoSegments(files[j]))
                        ==> Classify(files).imagePrincipale == Some(files[i])
  {
    if files != [] {
      var init, last := files[..|files| - 1], files[|files| - 1];
      PrincipalImageIsLastTwoSegmentFile(init);
      assert Classify(files) == Step(Classify(init), last);
      StepImage(Classify(init), last);
      forall i | 0 <= i < |init| && TwoSegments(files[i])
                 && (forall j :: i < j < |files| ==> !TwoSegments(files[j]))
        ensures Classify(files).imagePrincipale == Some(files[i])
      {
        assert init[i] == files[i];
        assert !TwoSegments(last);
        forall j | i < j < |init| ensures !TwoSegments(init[j]) { assert init[j] == files[j]; }
      }
      if forall i :: 0 <= i < |files| ==> !TwoSegments(files[i]) {
        forall j | 0 <= j < |init| ensures !TwoSegments(init[j]) { assert init[j] == files[j]; }
        assert !TwoSegments(last);
      }
    }
  }

  /** The layer a three-segment file contributes. */
  function LayerFor(f: FileEntry): Layer
    requires ThreeSegments(f)
  {
    Layer(StripExtension(Segments(f)[2]), f)
  }

  /** The three-segment files whose motif segment is `n`, as layers, in input order. */
  function LayersFor(files: seq<FileEntry>, n: string): seq<Layer> {
    if files == [] then []
    else
      var f := files[|files| - 1];
      LayersFor(files[..|files| - 1], n) + (if ThreeSegments(f) && Segments(f)[1] == n then [LayerFor(f)] else [])
  }

  function ThreeSegmentCount(files: seq<FileEntry>): nat {
    if files == [] then 0
    else ThreeSegmentCount(files[..|files| - 1]) + (if ThreeSegments(files[|files| - 1]) then 1 else 0)
  }

  /** Each motif's list holds exactly its three-segment files, in input order. */
  lemma {:induction false} MotifLayersInInputOrder(files: seq<FileEntry>, n: string)
    ensures LayersOf(Classify(files).motifs, n) == LayersFor(files, n)
  {
    if files != [] {
      MotifLayersInInputOrder(files[..|files| - 1], n);
    }
  }

  /** Some three-segment file among `files` has motif segment `n`. */
  predicate IsMotifSegment(files: seq<FileEntry>, n: string) {
    exists i :: 0 <= i < |files| && ThreeSegments(files[i]) && Segments(files[i])[1] == n
  }

  lemma IsMotifSegmentSnoc(files: seq<FileEntry>, f: FileEntry, n: string)
    ensures IsMotifSegment(files + [f], n) <==> IsMotifSegment(files, n) || (ThreeSegments(f) && Segments(f)[1] == n)
  {
    var all := files + [f];
    if IsMotifSegment(files, n) {
      var i :| 0 <= i < |files| && ThreeSegments(files[i]) && Segments(files[i])[1] == n;
      assert all[i] == files[i];
    }
    if ThreeSegments(f) && Segments(f)[1] == n {
      assert all[|files|] == f;
    }
    if IsMotifSegment(all, n) {
      var i :| 0 <= i < |all| && ThreeSegments(all[i]) && Segments(all[i])[1] == n;
      if i < |files| { assert files[i] == all[i]; }
    }
  }

  lemma NoDupSnoc(s: seq<string>, x: string)
    requires NoDup(s) && x !in s
    ensures NoDup(s + [x])
  {
  }

  /** The motif keys are distinct and are exactly the motif segments of the
      three-segment files. */
  lemma {:induction false} MotifKeys(files: seq<FileEntry>)
    ensures NoDup(Names(Classify(files).motifs))
    ensures forall n :: n in Names(Classify(files).motifs) <==> IsMotifSegment(files, n)
  {
    if files != [] {
      var init, f := files[..|files| - 1], files[|files| - 1];
      assert files == init + [f];
      MotifKeys(init);
      StepNames(Classify(init), f);
      var before := Names(Classify(init).motifs);
      if ThreeSegments(f) && Segments(f)[1] !in before {
        NoDupSnoc(before, Segments(f)[1]);
      }
      forall n ensures n in Names(Classify(files).motifs) <==> IsMotifSegment(files, n) {
        IsMotifSegmentSnoc(init, f, n);
      }
    }
  }

  lemma {:induction false} TotalLayersUpdate(ms: seq<Motif>, i: int, m: Motif)
    requires 0 <= i < |ms|
    ensures TotalLayers(ms[i := m]) == TotalLayers(ms) - |ms[i].layers| + |m.layers|
    decreases |ms|
  {
    var last := |ms| - 1;
    assert ms[i := m][..last] == if i == last then ms[..last] else ms[..last][i := m];
    if i < last {
      TotalLayersUpdate(ms[..last], i, m);
    }
  }

  /** Every three-segment file becomes exactly one layer. */
  lemma {:induction false} LayerCountIsThreeSegmentCount(files: seq<FileEntry>)
    ensures TotalLayers(Classify(files).motifs) == ThreeSegmentCount(files)
  {
    if files != [] {
      var init, f := files[..|files| - 1], files[|files| - 1];
      LayerCountIsThreeSegmentCount(init);
      var ms := Classify(init).motifs;
      if ThreeSegments(f) {
        var parts := Segments(f);
        var i := FindMotif(ms, parts[1]);
        if i >= 0 {
          TotalLayersUpdate(ms, i, Motif(parts[1], ms[i].layers + [LayerFor(f)]));
        } else {
          assert (ms + [Motif(parts[1], [LayerFor(f)])])[..|ms|] == ms;
        }
      }
    }
  }

  /** Motif keys are enumerated in insertion order: more files only add keys at the end. */
  lemma {:induction false} MotifKeysGrowAtEnd(files: seq<FileEntry>, more: seq<FileEntry>)
    ensures Names(Classify(files).motifs) <= Names(Classify(files + more).motifs)
    decreases |more|
  {
    if more == [] {
      assert files + more == files;
    } else {
      var init := more[..|more| - 1];
      assert files + more == (files + init) + [more[|more| - 1]];
      assert (files + more)[..|files + more| - 1] == files + init;
      MotifKeysGrowAtEnd(files, init);
      StepNames(Classify(files + init), more[|more| - 1]);
    }
  }
}
