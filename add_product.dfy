/** The admin "add product" page (app/admin/ajouter-produit/page.js). The page's
    React state is the class `AddProductPage`; its handlers are its methods. The
    network is abstract: the name check and the create request are represented
    by the reply they produce, and the media host by a map from each upload call
    to the URL it returns (a call absent from the map throws). The calls the
    page makes, the progress values it shows and the toasts it raises are
    recorded in ghost logs. */
module AddProduct {
  import opened Common
  import opened ProductFolder

  /** The category buttons the page offers. */
  const Categories: seq<string> := ["INTEMPOREL", "GRAPHIQUES", "PRESTIGE", "ETHINIQUE", "BAGUETTES", "INSPIRATION"]

  /** `uploadToCloudinary(file, publicId, folder)`. */
  datatype UploadCall = UploadCall(file: Option<FileEntry>, publicId: string, folder: string)

  datatype LayerOut = LayerOut(couleur: string, image: string)
  datatype MotifOut = MotifOut(nom: string, calques: seq<LayerOut>)

  /** The body of the create request; the price is kept as the text typed in. */
  datatype ProductRecord = ProductRecord(
    name: string, image: string, description: string,
    category: seq<string>, price: string, motifs: seq<MotifOut>)

  datatype NetCall =
    | ExistsCheck(name: string)
    | Upload(call: UploadCall)
    | CreateProduct(record: ProductRecord)

  /** How the name check ends: `exists` false, `exists` true, or an exception. */
  datatype ExistsReply = NameFree | NameTaken | CheckFailed

  /** How the create request ends: ok, a non-ok status with the body's `error`
      (which may be absent), or an exception. */
  datatype CreateReply = Created | Rejected(error: Option<string>) | CreateFailed

  datatype Toast = Success(text: string) | Error(text: string)

  const MsgRequired := "Veuillez remplir tous les champs requis."
  const MsgNameTaken := "Un produit avec ce nom existe déjà."
  const MsgCheckFailed := "Erreur lors de la vérification du produit."
  const MsgUploadFailed := "Erreur lors de l'upload"
  const MsgSaved := "Produit enregistré avec succès \U{1F389}"

  /** `` `Erreur API: ${err.error}` ``: an absent field prints as `undefined`. */
  function ApiError(error: Option<string>): string {
    "Erreur API: " + match error case Some(e) => e case None => "undefined"
  }

  /** The toast raised once every upload has succeeded. */
  function CreateToast(reply: CreateReply): Toast {
    match reply
    case Created => Success(MsgSaved)
    case Rejected(e) => Error(ApiError(e))
    case CreateFailed => Error(MsgUploadFailed)
  }

  // ---------------------------------------------------------------------------
  // The upload plan

  function BaseFolder(productName: string): string { "produits/" + productName }

  function MotifFolder(base: string, motif: string): string { base + "/" + motif }

  function LayerCall(l: Layer, folder: string): UploadCall {
    UploadCall(Some(l.file), l.couleur, folder)
  }

  /** One upload per layer, in list order, into the motif's folder. */
  function LayerCalls(ls: seq<Layer>, folder: string): (r: seq<UploadCall>)
    ensures |r| == |ls|
    ensures forall j :: 0 <= j < |ls| ==> r[j] == LayerCall(ls[j], folder)
  {
    if ls == [] then [] else LayerCalls(ls[..|ls| - 1], folder) + [LayerCall(ls[|ls| - 1], folder)]
  }

  function MotifCalls(ms: seq<Motif>, base: string): (r: seq<UploadCall>)
    ensures |r| == TotalLayers(ms)
  {
    if ms == [] then []
    else
      var m := ms[|ms| - 1];
      MotifCalls(ms[..|ms| - 1], base) + LayerCalls(m.layers, MotifFolder(base, m.name))
  }

  /** Every upload the save makes when none fails: the principal image, then each
      motif in key order and each of its layers in list order. */
  function Plan(s: Structure): seq<UploadCall> {
    var base := BaseFolder(s.productName);
    [UploadCall(s.imagePrincipale, "imagePrincipale", base)] + MotifCalls(s.motifs, base)
  }

  /** `totalFiles`. */
  function TotalFiles(s: Structure): nat { 1 + TotalLayers(s.motifs) }

  /** The plan has `totalFiles` calls, the first one for the principal image. */
  lemma PlanLength(s: Structure)
    ensures |Plan(s)| == TotalFiles(s)
    ensures Plan(s)[0] == UploadCall(s.imagePrincipale, "imagePrincipale", BaseFolder(s.productName))
  {
  }

  lemma {:induction false} MotifCallsPrefix(ms: seq<Motif>, base: string, k: nat)
    requires k <= |ms|
    ensures MotifCalls(ms[..k], base) <= MotifCalls(ms, base)
    decreases |ms|
  {
    if k < |ms| {
      assert ms[..|ms| - 1][..k] == ms[..k];
      MotifCallsPrefix(ms[..|ms| - 1], base, k);
    } else {
      assert ms[..k] == ms;
    }
  }

  /** Layer `j` of motif `i` is upload number `1 + (layers of the motifs before i) + j`,
      with the layer's colour as public id and the motif's folder. */
  lemma PlanAt(s: Structure, i: nat, j: nat)
    requires i < |s.motifs| && j < |s.motifs[i].layers|
    ensures 1 + TotalLayers(s.motifs[..i]) + j < |Plan(s)|
    ensures Plan(s)[1 + TotalLayers(s.motifs[..i]) + j]
         == LayerCall(s.motifs[i].layers[j], MotifFolder(BaseFolder(s.productName), s.motifs[i].name))
  {
    var base := BaseFolder(s.productName);
    var ms := s.motifs;
    var t := TotalLayers(ms[..i]);
    var all := MotifCalls(ms, base);
    MotifCallsSnoc(ms, i, base);
    MotifCallsPrefix(ms, base, i + 1);
    assert all[t + j] == MotifCalls(ms[..i + 1], base)[t + j];
    assert all[t + j] == LayerCalls(ms[i].layers, MotifFolder(base, ms[i].name))[j];
  }

  lemma MotifCallsSnoc(ms: seq<Motif>, i: nat, base: string)
    requires i < |ms|
    ensures MotifCalls(ms[..i + 1], base) == MotifCalls(ms[..i], base) + LayerCalls(ms[i].layers, MotifFolder(base, ms[i].name))
  {
    assert ms[..i + 1][..i] == ms[..i];
  }

  /** The uploads of motif `i` sit, in layer order, right after those of the
      motifs before it. */
  lemma MotifSlice(s: Structure, i: nat)
    requires i < |s.motifs|
    ensures TotalLayers(s.motifs[..i + 1]) == TotalLayers(s.motifs[..i]) + |s.motifs[i].layers|
    ensures 1 + TotalLayers(s.motifs[..i]) + |s.motifs[i].layers| <= |Plan(s)|
    ensures forall j :: 0 <= j < |s.motifs[i].layers| ==>
              Plan(s)[1 + TotalLayers(s.motifs[..i]) + j]
              == LayerCall(s.motifs[i].layers[j], MotifFolder(BaseFolder(s.productName), s.motifs[i].name))
  {
    assert s.motifs[..i + 1][..i] == s.motifs[..i];
    var base := BaseFolder(s.productName);
    MotifCallsPrefix(s.motifs, base, i + 1);
    forall j | 0 <= j < |s.motifs[i].layers|
      ensures Plan(s)[1 + TotalLayers(s.motifs[..i]) + j]
              == LayerCall(s.motifs[i].layers[j], MotifFolder(base, s.motifs[i].name))
    {
      PlanAt(s, i, j);
    }
  }

  /** Number of uploads that succeed before the first one that fails. */
  function FirstFailure(plan: seq<UploadCall>, upload: map<UploadCall, string>): (k: nat)
    ensures k <= |plan|
    ensures forall i :: 0 <= i < k ==> plan[i] in upload
    ensures k < |plan| ==> plan[k] !in upload
  {
    if plan == [] || plan[0] !in upload then 0
    else 1 + FirstFailure(plan[1..], upload)
  }

  /** The count of leading successes is pinned down by where the first failure is. */
  lemma FirstFailureIs(plan: seq<UploadCall>, upload: map<UploadCall, string>, k: nat)
    requires k <= |plan|
    requires forall i :: 0 <= i < k ==> plan[i] in upload
    requires k < |plan| ==> plan[k] !in upload
    ensures FirstFailure(plan, upload) == k
  {
  }

  function UploadCalls(cs: seq<UploadCall>): (r: seq<NetCall>)
    ensures |r| == |cs|
  {
    if cs == [] then [] else UploadCalls(cs[..|cs| - 1]) + [Upload(cs[|cs| - 1])]
  }

  /** Call `i` of the log is the upload of call `i`. */
  lemma {:induction false} UploadCallsAt(cs: seq<UploadCall>, i: nat)
    requires i < |cs|
    ensures UploadCalls(cs)[i] == Upload(cs[i])
  {
    if i < |cs| - 1 {
      UploadCallsAt(cs[..|cs| - 1], i);
    }
  }

  lemma UploadCallsSnoc(cs: seq<UploadCall>, c: UploadCall)
    ensures UploadCalls(cs + [c]) == UploadCalls(cs) + [Upload(c)]
  {
    assert (cs + [c])[..|cs|] == cs;
  }

  // ---------------------------------------------------------------------------
  // The record sent to the create endpoint

  function UrlOf(upload: map<UploadCall, string>, c: UploadCall): string {
    if c in upload then upload[c] else ""
  }

  function OutLayers(ls: seq<Layer>, folder: string, upload: map<UploadCall, string>): (r: seq<LayerOut>)
    ensures |r| == |ls|
  {
    if ls == [] then []
    else
      var l := ls[|ls| - 1];
      OutLayers(ls[..|ls| - 1], folder, upload) + [LayerOut(l.couleur, UrlOf(upload, LayerCall(l, folder)))]
  }

  /** Each layer keeps its colour and gets the URL of its own upload. */
  lemma {:induction false} OutLayerAt(ls: seq<Layer>, folder: string, upload: map<UploadCall, string>, j: nat)
    requires j < |ls|
    ensures OutLayers(ls, folder, upload)[j] == LayerOut(ls[j].couleur, UrlOf(upload, LayerCall(ls[j], folder)))
  {
    if j < |ls| - 1 {
      OutLayerAt(ls[..|ls| - 1], folder, upload, j);
    }
  }

  lemma OutLayersSnoc(ls: seq<Layer>, l: Layer, folder: string, upload: map<UploadCall, string>)
    ensures OutLayers(ls + [l], folder, upload)
         == OutLayers(ls, folder, upload) + [LayerOut(l.couleur, UrlOf(upload, LayerCall(l, folder)))]
  {
    assert (ls + [l])[..|ls|] == ls;
  }

  /** `Object.entries(motifs).map(([nom, calques]) => ({ nom, calques }))`: the
      motifs in key order, each layer paired with the URL of its upload. */
  function OutMotifs(ms: seq<Motif>, base: string, upload: map<UploadCall, string>): (r: seq<MotifOut>)
    ensures |r| == |ms|
  {
    if ms == [] then []
    else
      var m := ms[|ms| - 1];
      OutMotifs(ms[..|ms| - 1], base, upload) + [MotifOut(m.name, OutLayers(m.layers, MotifFolder(base, m.name), upload))]
  }

  /** Each motif keeps its name, and its layers are paired with their URLs. */
  lemma {:induction false} OutMotifAt(ms: seq<Motif>, base: string, upload: map<UploadCall, string>, i: nat)
    requires i < |ms|
    ensures OutMotifs(ms, base, upload)[i] == MotifOut(ms[i].name, OutLayers(ms[i].layers, MotifFolder(base, ms[i].name), upload))
  {
    if i < |ms| - 1 {
      OutMotifAt(ms[..|ms| - 1], base, upload, i);
    }
  }

  lemma OutMotifsSnoc(ms: seq<Motif>, i: nat, base: string, upload: map<UploadCall, string>)
    requires i < |ms|
    ensures OutMotifs(ms[..i + 1], base, upload)
         == OutMotifs(ms[..i], base, upload) + [MotifOut(ms[i].name, OutLayers(ms[i].layers, MotifFolder(base, ms[i].name), upload))]
  {
    assert ms[..i + 1][..i] == ms[..i];
  }

  function Record(s: Structure, description: string, categories: seq<string>, price: string,
                  upload: map<UploadCall, string>): ProductRecord
  {
    var base := BaseFolder(s.productName);
    ProductRecord(s.productName, UrlOf(upload, Plan(s)[0]), description, categories, price,
                  OutMotifs(s.motifs, base, upload))
  }

  /** Motif `i` of the record keeps its name and its colour labels, and pairs
      each label with the URL of that layer's upload call. */
  lemma RecordMotifAt(s: Structure, upload: map<UploadCall, string>, i: nat)
    requires i < |s.motifs|
    ensures var m := OutMotifs(s.motifs, BaseFolder(s.productName), upload)[i];
      && m.nom == s.motifs[i].name
      && |m.calques| == |s.motifs[i].layers|
      && (forall j :: 0 <= j < |s.motifs[i].layers| ==>
            m.calques[j] == LayerOut(s.motifs[i].layers[j].couleur,
                                     UrlOf(upload, LayerCall(s.motifs[i].layers[j], MotifFolder(BaseFolder(s.productName), s.motifs[i].name)))))
  {
    var base := BaseFolder(s.productName);
    var folder := MotifFolder(base, s.motifs[i].name);
    OutMotifAt(s.motifs, base, upload, i);
    forall j | 0 <= j < |s.motifs[i].layers| {
      OutLayerAt(s.motifs[i].layers, folder, upload, j);
    }
  }

  /** The record keeps the structure's name, motif order and colour labels, and
      pairs each label with the URL returned by that layer's upload call; the
      record's image is the URL of the first call of the plan. */
  lemma RecordFollowsStructure(s: Structure, description: string, categories: seq<string>, price: string,
                               upload: map<UploadCall, string>)
    ensures Record(s, description, categories, price, upload).name == s.productName
    ensures Record(s, description, categories, price, upload).image
         == UrlOf(upload, UploadCall(s.imagePrincipale, "imagePrincipale", BaseFolder(s.productName)))
    ensures |Record(s, description, categories, price, upload).motifs| == |s.motifs|
    ensures forall i :: 0 <= i < |s.motifs| ==>
              var m := Record(s, description, categories, price, upload).motifs[i];
              && m.nom == s.motifs[i].name
              && |m.calques| == |s.motifs[i].layers|
              && (forall j :: 0 <= j < |s.motifs[i].layers| ==>
                    m.calques[j] == LayerOut(s.motifs[i].layers[j].couleur,
                                             UrlOf(upload, LayerCall(s.motifs[i].layers[j], MotifFolder(BaseFolder(s.productName), s.motifs[i].name)))))
  {
    forall i | 0 <= i < |s.motifs| {
      RecordMotifAt(s, upload, i);
    }
  }

  // ---------------------------------------------------------------------------
  // Progress

  /** `Math.round(k / n * 100)` on exact rationals: round half up of `100k/n`. */
  function Progress(k: nat, n: nat): int
    requires n >= 1
  {
    (200 * k + n) / (2 * n)
  }

  /** The values shown after uploads 1 to k. */
  function ProgressValues(k: nat, n: nat): (r: seq<int>)
    requires n >= 1
    ensures |r| == k
  {
    if k == 0 then [] else ProgressValues(k - 1, n) + [Progress(k, n)]
  }

  /** Value `i` is the percentage after upload `i + 1`. */
  lemma {:induction false} ProgressValuesAt(k: nat, n: nat, i: nat)
    requires n >= 1 && i < k
    ensures ProgressValues(k, n)[i] == Progress(i + 1, n)
  {
    if i < k - 1 {
      ProgressValuesAt(k - 1, n, i);
    }
  }

  /** `d*x + d <= d*y` when `x < y` and `d` is not negative. */
  lemma MulStep(d: int, x: int, y: int)
    requires d >= 0 && x < y
    ensures d * x + d <= d * y
  {
    assert d * y - d * x == d * (y - x);
    assert d * (y - x) == d * (y - x - 1) + d;
  }

  /** `q` is the quotient of `x` by `d` when `x` lies in `[d*q, d*q + d)`. */
  lemma DivUnique(x: int, d: int, q: int)
    requires d > 0 && d * q <= x < d * q + d
    ensures x / d == q
  {
    var r := x / d;
    assert x == d * r + x % d;
    if r > q {
      MulStep(d, q, r);
    } else if r < q {
      MulStep(d, r, q);
    }
  }

  lemma DivMonotone(a: int, b: int, d: int)
    requires 0 <= a <= b && d > 0
    ensures a / d <= b / d
  {
    var qa := a / d;
    var qb := b / d;
    assert a == d * qa + a % d && b == d * qb + b % d;
    if qa > qb {
      MulStep(d, qb, qa);
    }
  }

  /** The percentage starts at 0, ends at 100 and stays within those bounds. */
  lemma ProgressBounds(k: nat, n: nat)
    requires n >= 1 && k <= n
    ensures Progress(0, n) == 0
    ensures Progress(n, n) == 100
    ensures 0 <= Progress(k, n) <= 100
  {
    assert Progress(n, n) == (201 * n) / (2 * n);
    assert 201 * n == 100 * (2 * n) + n;
    DivMonotone(200 * k + n, 200 * n + n, 2 * n);
  }

  /** One more upload never lowers the percentage. */
  lemma ProgressMonotone(k1: nat, k2: nat, n: nat)
    requires n >= 1 && k1 <= k2
    ensures Progress(k1, n) <= Progress(k2, n)
  {
    DivMonotone(200 * k1 + n, 200 * k2 + n, 2 * n);
  }

  /** Exactly when the bar shows 100: `k` reaches `n`, or `k` is within half a
      percent of it (`200k >= 199n`), which for `n >= 200` already happens at
      `k = n - 1`. */
  lemma ProgressFull(k: nat, n: nat)
    requires n >= 1 && k <= n
    ensures Progress(k, n) == 100 <==> 200 * k >= 199 * n
    ensures n < 200 ==> (Progress(k, n) == 100 <==> k == n)
  {
    if 200 * k >= 199 * n {
      ProgressReaches(k, n);
    } else {
      ProgressShort(k, n);
    }
    if n < 200 && k < n {
      assert 200 * k <= 200 * n - 200;
    }
  }

  lemma ProgressReaches(k: nat, n: nat)
    requires n >= 1 && k <= n && 200 * k >= 199 * n
    ensures Progress(k, n) == 100
  {
    DivUnique(200 * k + n, 2 * n, 100);
  }

  lemma ProgressShort(k: nat, n: nat)
    requires n >= 1 && 200 * k < 199 * n
    ensures Progress(k, n) <= 99
  {
    DivMonotone(200 * k + n, 200 * n - 1, 2 * n);
    DivUnique(200 * n - 1, 2 * n, 99);
  }

  /** The shown values never decrease, stay within 0..100 and end at 100 when
      every upload succeeded. */
  lemma ProgressValuesMonotone(k: nat, n: nat)
    requires n >= 1 && k <= n
    ensures forall i, j :: 0 <= i <= j < k ==> ProgressValues(k, n)[i] <= ProgressValues(k, n)[j]
    ensures forall i :: 0 <= i < k ==> 0 <= ProgressValues(k, n)[i] <= 100
    ensures k == n ==> ProgressValues(k, n)[k - 1] == 100
  {
    forall i, j | 0 <= i <= j < k ensures ProgressValues(k, n)[i] <= ProgressValues(k, n)[j] {
      ProgressValuesAt(k, n, i);
      ProgressValuesAt(k, n, j);
      ProgressMonotone(i + 1, j + 1, n);
    }
    forall i | 0 <= i < k ensures 0 <= ProgressValues(k, n)[i] <= 100 {
      ProgressValuesAt(k, n, i);
      ProgressBounds(i + 1, n);
    }
    if k == n {
      ProgressValuesAt(k, n, k - 1);
    }
    ProgressBounds(k, n);
  }

  // ---------------------------------------------------------------------------
  // The upload loops. They keep the calls made and the percentages shown in
  // ghost outputs; the page appends those to its logs.

  /** The first `uploaded` calls of the plan went out and all succeeded: the
      calls made and the percentages shown so far. */
  ghost predicate UploadedPrefix(plan: seq<UploadCall>, upload: map<UploadCall, string>, uploaded: nat,
                                 totalFiles: nat, sent: seq<NetCall>, shown: seq<int>)
  {
    && 1 <= totalFiles == |plan| && uploaded <= |plan|
    && (forall c :: 0 <= c < uploaded ==> plan[c] in upload)
    && sent == UploadCalls(plan[..uploaded])
    && shown == ProgressValues(uploaded, totalFiles)
  }

  /** The first `uploaded` calls of the plan succeeded and the next one, which
      also went out, failed. */
  ghost predicate FailedAfter(plan: seq<UploadCall>, upload: map<UploadCall, string>, uploaded: nat,
                              totalFiles: nat, sent: seq<NetCall>, shown: seq<int>)
  {
    && 1 <= totalFiles == |plan| && uploaded < |plan|
    && (forall c :: 0 <= c < uploaded ==> plan[c] in upload)
    && plan[uploaded] !in upload
    && sent == UploadCalls(plan[..uploaded + 1])
    && shown == ProgressValues(uploaded, totalFiles)
  }

  /** The inner loop of the save: one motif's layers in list order, into its
      folder, stopping at the first failure. The layers are the plan's
      uploads from position `uploaded0` on. */
  method UploadLayers(ghost plan: seq<UploadCall>, layers: seq<Layer>, folder: string,
                      upload: map<UploadCall, string>, uploaded0: nat, totalFiles: nat,
                      ghost sent0: seq<NetCall>, ghost shown0: seq<int>)
    returns (calques: seq<LayerOut>, uploaded: nat, ok: bool, ghost sent: seq<NetCall>, ghost shown: seq<int>)
    requires 1 <= uploaded0 && uploaded0 + |layers| <= |plan|
    requires forall j :: 0 <= j < |layers| ==> plan[uploaded0 + j] == LayerCall(layers[j], folder)
    requires UploadedPrefix(plan, upload, uploaded0, totalFiles, sent0, shown0)
    ensures uploaded0 <= uploaded <= uploaded0 + |layers|
    ensures ok <==> uploaded == uploaded0 + |layers|
    ensures ok ==> UploadedPrefix(plan, upload, uploaded, totalFiles, sent, shown)
    ensures ok ==> calques == OutLayers(layers, folder, upload)
    ensures !ok ==> FailedAfter(plan, upload, uploaded, totalFiles, sent, shown)
  {
    calques, uploaded, sent, shown := [], uploaded0, sent0, shown0;
    var j := 0;
    while j < |layers|
      invariant 0 <= j <= |layers| && uploaded == uploaded0 + j
      invariant UploadedPrefix(plan, upload, uploaded, totalFiles, sent, shown)
      invariant calques == OutLayers(layers[..j], folder, upload)
    {
      ok, calques, sent, shown := UploadLayer(plan, layers, j, folder, upload, uploaded, totalFiles, calques, sent, shown);
      if !ok {
        return calques, uploaded, false, sent, shown;
      }
      uploaded := uploaded + 1;
      j := j + 1;
    }
    assert layers[..j] == layers;
    ok := true;
  }

  /** One turn of the inner loop: layer `j`, upload number `uploaded0` of the plan. */
  method UploadLayer(ghost plan: seq<UploadCall>, layers: seq<Layer>, j: nat, folder: string,
                     upload: map<UploadCall, string>, uploaded0: nat, totalFiles: nat, calques0: seq<LayerOut>,
                     ghost sent0: seq<NetCall>, ghost shown0: seq<int>)
    returns (ok: bool, calques: seq<LayerOut>, ghost sent: seq<NetCall>, ghost shown: seq<int>)
    requires j < |layers| && uploaded0 < |plan|
    requires plan[uploaded0] == LayerCall(layers[j], folder)
    requires UploadedPrefix(plan, upload, uploaded0, totalFiles, sent0, shown0)
    requires calques0 == OutLayers(layers[..j], folder, upload)
    ensures ok <==> plan[uploaded0] in upload
    ensures ok ==> UploadedPrefix(plan, upload, uploaded0 + 1, totalFiles, sent, shown)
    ensures ok ==> calques == OutLayers(layers[..j + 1], folder, upload)
    ensures !ok ==> FailedAfter(plan, upload, uploaded0, totalFiles, sent, shown)
  {
    var calque := layers[j];
    var call := LayerCall(calque, folder);
    assert plan[..uploaded0 + 1] == plan[..uploaded0] + [call];
    UploadCallsSnoc(plan[..uploaded0], call);
    sent := sent0 + [Upload(call)];
    if call !in upload {
      return false, calques0, sent, shown0;
    }
    assert layers[..j + 1] == layers[..j] + [calque];
    OutLayersSnoc(layers[..j], calque, folder, upload);
    calques := calques0 + [LayerOut(calque.couleur, upload[call])];
    shown := shown0 + [Progress(uploaded0 + 1, totalFiles)];
    ok := true;
  }

  /** One turn of the outer loop: motif `i`'s layers, which follow in the plan
      the uploads of the principal image and of the motifs before it. */
  method UploadMotif(ghost plan: seq<UploadCall>, s: Structure, i: nat, upload: map<UploadCall, string>,
                     uploaded0: nat, totalFiles: nat, motifs0: seq<MotifOut>,
                     ghost sent0: seq<NetCall>, ghost shown0: seq<int>)
    returns (motifs: seq<MotifOut>, uploaded: nat, ok: bool, ghost sent: seq<NetCall>, ghost shown: seq<int>)
    requires plan == Plan(s) && i < |s.motifs|
    requires motifs0 == OutMotifs(s.motifs[..i], BaseFolder(s.productName), upload)
    requires uploaded0 == 1 + TotalLayers(s.motifs[..i])
    requires UploadedPrefix(plan, upload, uploaded0, totalFiles, sent0, shown0)
    ensures ok <==> uploaded == 1 + TotalLayers(s.motifs[..i + 1])
    ensures ok ==> UploadedPrefix(plan, upload, uploaded, totalFiles, sent, shown)
    ensures ok ==> motifs == OutMotifs(s.motifs[..i + 1], BaseFolder(s.productName), upload)
    ensures !ok ==> FailedAfter(plan, upload, uploaded, totalFiles, sent, shown)
  {
    var motifNom := s.motifs[i].name;
    var folder := MotifFolder(BaseFolder(s.productName), motifNom);
    MotifSlice(s, i);
    var calques;
    calques, uploaded, ok, sent, shown := UploadLayers(plan, s.motifs[i].layers, folder, upload, uploaded0, totalFiles, sent0, shown0);
    OutMotifsSnoc(s.motifs, i, BaseFolder(s.productName), upload);
    motifs := motifs0 + [MotifOut(motifNom, calques)];
  }

  /** The outer loop of the save: the motifs in key order, once the principal
      image (upload 0 of the plan) went up. */
  method UploadMotifs(ghost plan: seq<UploadCall>, s: Structure, upload: map<UploadCall, string>, totalFiles: nat,
                      ghost sent0: seq<NetCall>, ghost shown0: seq<int>)
    returns (motifs: seq<MotifOut>, uploaded: nat, ok: bool, ghost sent: seq<NetCall>, ghost shown: seq<int>)
    requires plan == Plan(s) && totalFiles == |plan|
    requires plan[0] in upload
    requires sent0 == UploadCalls(plan[..1])
    requires shown0 == ProgressValues(1, totalFiles)
    ensures 1 <= uploaded
    ensures ok ==> uploaded == |plan| && UploadedPrefix(plan, upload, uploaded, totalFiles, sent, shown)
    ensures ok ==> motifs == OutMotifs(s.motifs, BaseFolder(s.productName), upload)
    ensures !ok ==> FailedAfter(plan, upload, uploaded, totalFiles, sent, shown)
  {
    var baseFolder := BaseFolder(s.productName);
    motifs, uploaded, sent, shown := [], 1, sent0, shown0;
    var i := 0;
    while i < |s.motifs|
      invariant 0 <= i <= |s.motifs|
      invariant uploaded == 1 + TotalLayers(s.motifs[..i])
      invariant UploadedPrefix(plan, upload, uploaded, totalFiles, sent, shown)
      invariant motifs == OutMotifs(s.motifs[..i], baseFolder, upload)
    {
      var motifOk;
      motifs, uploaded, motifOk, sent, shown := UploadMotif(plan, s, i, upload, uploaded, totalFiles, motifs, sent, shown);
      if !motifOk {
        return motifs, uploaded, false, sent, shown;
      }
      i := i + 1;
    }
    assert s.motifs[..i] == s.motifs;
    PlanLength(s);
    ok := true;
  }

  /** The uploads of the save: the principal image, then the motifs, stopping at
      the first failure. `sent` is the plan's calls up to and including the
      first failing one, and `uploaded` the number that succeeded. */
  method UploadFiles(s: Structure, upload: map<UploadCall, string>)
    returns (imageUrl: string, motifs: seq<MotifOut>, uploaded: nat, ok: bool,
             ghost sent: seq<NetCall>, ghost shown: seq<int>)
    ensures uploaded == FirstFailure(Plan(s), upload)
    ensures ok <==> uploaded == |Plan(s)|
    ensures ok ==> imageUrl == UrlOf(upload, Plan(s)[0])
    ensures ok ==> motifs == OutMotifs(s.motifs, BaseFolder(s.productName), upload)
    ensures sent == UploadCalls(Plan(s)[..if ok then uploaded else uploaded + 1])
    ensures shown == ProgressValues(uploaded, |Plan(s)|)
  {
    PlanLength(s);
    var baseFolder := BaseFolder(s.productName);
    var totalFiles := 1 + TotalLayers(s.motifs);
    var mainCall := UploadCall(s.imagePrincipale, "imagePrincipale", baseFolder);
    ghost var plan := Plan(s);
    assert plan[..1] == [mainCall];
    sent := [Upload(mainCall)];
    shown := [];
    if mainCall !in upload {
      FirstFailureIs(plan, upload, 0);
      return "", [], 0, false, sent, shown;
    }
    imageUrl := upload[mainCall];
    shown := shown + [Progress(1, totalFiles)];
    motifs, uploaded, ok, sent, shown := UploadMotifs(plan, s, upload, totalFiles, sent, shown);
    FirstFailureIs(plan, upload, uploaded);
  }

  /** The requests the save makes once the name is known to be free: the plan's
      uploads up to and including the first failure, then, only when none
      failed, the create request with the record. */
  function SaveCalls(s: Structure, description: string, categories: seq<string>, price: string,
                     upload: map<UploadCall, string>): seq<NetCall>
  {
    var p := Plan(s);
    var k := FirstFailure(p, upload);
    if k == |p| then UploadCalls(p) + [CreateProduct(Record(s, description, categories, price, upload))]
    else UploadCalls(p[..k + 1])
  }

  /** The part of the save after the name check: the uploads, then the create
      request. It reports the toast, whether the product was created, and the
      last percentage shown by the uploads. */
  method UploadAndCreate(s: Structure, description: string, categories: seq<string>, price: string,
                         upload: map<UploadCall, string>, createReply: CreateReply)
    returns (toast: Toast, created: bool, progress: int, ghost sent: seq<NetCall>, ghost shown: seq<int>)
    ensures progress == Progress(FirstFailure(Plan(s), upload), |Plan(s)|)
    ensures created <==> FirstFailure(Plan(s), upload) == |Plan(s)| && createReply == Created
    ensures toast == if FirstFailure(Plan(s), upload) == |Plan(s)| then CreateToast(createReply) else Error(MsgUploadFailed)
    ensures sent == SaveCalls(s, description, categories, price, upload)
    ensures shown == ProgressValues(FirstFailure(Plan(s), upload), |Plan(s)|)
  {
    var imageUrl, motifs, uploaded, ok;
    imageUrl, motifs, uploaded, ok, sent, shown := UploadFiles(s, upload);
    PlanLength(s);
    var totalFiles := 1 + TotalLayers(s.motifs);
    progress := 0;
    if uploaded > 0 {
      progress := Progress(uploaded, totalFiles);
    } else {
      ProgressBounds(0, totalFiles);
    }
    if !ok {
      return Error(MsgUploadFailed), false, progress, sent, shown;
    }
    assert Plan(s)[..uploaded] == Plan(s);
    var newProduct := ProductRecord(s.productName, imageUrl, description, categories, price, motifs);
    sent := sent + [CreateProduct(newProduct)];
    match createReply {
      case Rejected(e) =>
        toast, created := Error(ApiError(e)), false;
      case CreateFailed =>
        toast, created := Error(MsgUploadFailed), false;
      case Created =>
        toast, created := Success(MsgSaved), true;
    }
  }

  // ---------------------------------------------------------------------------
  // The page

  /** `n` requests all made while `loading` is set. */
  function AllSet(n: int): (r: seq<bool>)
    requires n >= 0
    ensures |r| == n && forall i :: 0 <= i < n ==> r[i]
  {
    seq(n, _ => true)
  }

  class AddProductPage {
    var structure: Option<Structure>
    var description: string
    var selectedCategories: seq<string>
    var price: string
    var loading: bool
    var progress: int
    /** The requests made, in order. */
    ghost var calls: seq<NetCall>
    /** For each request in `calls`, whether `loading` was set when it went out. */
    ghost var loadingAtCall: seq<bool>
    /** Every value given to `setProgress`, in order. */
    ghost var progressLog: seq<int>
    ghost var toasts: seq<Toast>

    constructor()
      ensures structure.None? && description == "" && selectedCategories == [] && price == ""
      ensures !loading && progress == 0
      ensures calls == [] && loadingAtCall == [] && progressLog == [] && toasts == []
    {
      structure := None;
      description := "";
      selectedCategories := [];
      price := "";
      loading := false;
      progress := 0;
      calls := [];
      loadingAtCall := [];
      progressLog := [];
      toasts := [];
    }

    /** The form check: a structure, a description, a category and a price. The
        principal image is not required. */
    predicate FormComplete()
      reads this
    {
      structure.Some? && description != "" && |selectedCategories| > 0 && price != ""
    }

    /** A folder was picked: an empty selection leaves the structure as it was. */
    method HandleFilesSelection(files: seq<FileEntry>)
      modifies this`structure
      ensures files == [] ==> structure == old(structure)
      ensures files != [] ==> structure == Some(Classify(files))
    {
      if |files| == 0 {
        return;
      }
      var result := ClassifyFiles(files);
      structure := Some(result);
    }

    method ToggleCategory(cat: string)
      modifies this`selectedCategories
      ensures selectedCategories == Toggle(old(selectedCategories), cat)
    {
      if cat in selectedCategories {
        selectedCategories := Without(selectedCategories, cat);
      } else {
        selectedCategories := selectedCategories + [cat];
      }
    }

    /** The second half of the save, once the form is complete and the name is
        free: with the structure `s`, its plan `p` and `k` the number of uploads
        before the first failure, the page uploads `p` in order up to and
        including the first failure, reports the percentage after each success,
        and sends the record only when all of `p` went up. The form is cleared
        only when the product is created. */
    method SaveNewProduct(upload: map<UploadCall, string>, createReply: CreateReply)
      requires FormComplete()
      modifies this
      ensures calls == old(calls) + SaveCalls(old(structure).value, old(description), old(selectedCategories), old(price), upload)
      ensures loadingAtCall
              == old(loadingAtCall) + AllSet(|SaveCalls(old(structure).value, old(description), old(selectedCategories), old(price), upload)|)
      ensures var p := Plan(old(structure).value);
        var k := FirstFailure(p, upload);
        var created := k == |p| && createReply == Created;
        && progressLog == old(progressLog) + [0] + ProgressValues(k, |p|) + (if created then [0] else [])
        && progress == (if created then 0 else Progress(k, |p|))
        && toasts == old(toasts) + [if k == |p| then CreateToast(createReply) else Error(MsgUploadFailed)]
        && (created ==> structure.None? && description == "" && selectedCategories == [] && price == "")
        && (!created ==> structure == old(structure) && description == old(description)
                         && selectedCategories == old(selectedCategories) && price == old(price))
      ensures !loading
    {
      var toast, created, last;
      ghost var sent, shown;
      var s, d, c, pr := structure.value, description, selectedCategories, price;
      loading := true;
      toast, created, last, sent, shown := UploadAndCreate(s, d, c, pr, upload, createReply);
      RecordSave(sent, shown, toast, created, last);
      loading := false;
    }

    /** The effects of the save while `loading` is set: the requests are logged
        with the current `loading`, the progress and the toast are shown, and the
        form is cleared when the product was created. */
    method RecordSave(ghost sent: seq<NetCall>, ghost shown: seq<int>, toast: Toast, created: bool, last: int)
      requires loading
      modifies this
      ensures calls == old(calls) + sent && loadingAtCall == old(loadingAtCall) + AllSet(|sent|)
      ensures progressLog == old(progressLog) + [0] + shown + (if created then [0] else [])
      ensures progress == (if created then 0 else last)
      ensures toasts == old(toasts) + [toast]
      ensures created ==> structure.None? && description == "" && selectedCategories == [] && price == ""
      ensures !created ==> structure == old(structure) && description == old(description)
                           && selectedCategories == old(selectedCategories) && price == old(price)
      ensures loading
    {
      ghost var busy := loading;
      calls, loadingAtCall := calls + sent, loadingAtCall + seq(|sent|, _ => busy);
      progressLog := progressLog + [0] + shown + (if created then [0] else []);
      progress := if created then 0 else last;
      toasts := toasts + [toast];
      if created {
        structure, description, selectedCategories, price := None, "", [], "";
      }
    }

    /** The save: checks the form (making no request when it is incomplete),
        checks the name (stopping on a taken name or a failed check), then runs
        the uploads and the create request. */
    method HandleUploadAndSave(existsReply: ExistsReply, upload: map<UploadCall, string>, createReply: CreateReply)
      modifies this
      ensures !old(FormComplete()) ==>
                && calls == old(calls) && loadingAtCall == old(loadingAtCall) && progressLog == old(progressLog)
                && toasts == old(toasts) + [Error(MsgRequired)]
                && structure == old(structure) && description == old(description)
                && selectedCategories == old(selectedCategories) && price == old(price)
                && loading == old(loading) && progress == old(progress)
      ensures old(FormComplete()) && existsReply != NameFree ==>
                && calls == old(calls) + [ExistsCheck(old(structure).value.productName)]
                && loadingAtCall == old(loadingAtCall) + [old(loading)]
                && progressLog == old(progressLog)
                && toasts == old(toasts) + [Error(if existsReply == NameTaken then MsgNameTaken else MsgCheckFailed)]
                && structure == old(structure) && description == old(description)
                && selectedCategories == old(selectedCategories) && price == old(price)
                && loading == old(loading) && progress == old(progress)
      ensures old(FormComplete()) && existsReply == NameFree ==>
                var s := old(structure).value;
                var p := Plan(s);
                var k := FirstFailure(p, upload);
                var done := k == |p|;
                var created := done && createReply == Created;
                var sent := SaveCalls(s, old(description), old(selectedCategories), old(price), upload);
                && calls == old(calls) + [ExistsCheck(s.productName)] + sent
                && loadingAtCall == old(loadingAtCall) + [old(loading)] + AllSet(|sent|)
                && progressLog == old(progressLog) + [0] + ProgressValues(k, |p|) + (if created then [0] else [])
                && progress == (if created then 0 else Progress(k, |p|))
                && toasts == old(toasts) + [if done then CreateToast(createReply) else Error(MsgUploadFailed)]
                && !loading
                && (created ==> structure.None? && description == "" && selectedCategories == [] && price == "")
                && (!created ==> structure == old(structure) && description == old(description)
                                 && selectedCategories == old(selectedCategories) && price == old(price))
    {
      if !(structure.Some? && description != "" && |selectedCategories| > 0 && price != "") {
        toasts := toasts + [Error(MsgRequired)];
        return;
      }
      calls := calls + [ExistsCheck(structure.value.productName)];
      loadingAtCall := loadingAtCall + [loading];
      if existsReply == NameTaken {
        toasts := toasts + [Error(MsgNameTaken)];
        return;
      }
      if existsReply == CheckFailed {
        toasts := toasts + [Error(MsgCheckFailed)];
        return;
      }
      SaveNewProduct(upload, createReply);
    }
  }

  /** Two toggles of a category not yet selected give the list back. */
  lemma CategoryToggleTwice(selected: seq<string>, cat: string)
    requires cat !in selected
    ensures Toggle(Toggle(selected, cat), cat) == selected
  {
    ToggleTwiceRestores(selected, cat);
  }
}
