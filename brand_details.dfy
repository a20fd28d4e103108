/**
 * Editing the showcase of a brand block: image uploads appended to the
 * block's image and product galleries, and the overview, opening hours and
 * industries taken from the request body.  The handler answers errors
 * itself: its own refusals with their statuses, and anything thrown with
 * 500.  The image host is foreign: `upload(folder, file)` stands for the URL
 * it returns.
 */
module BrandDetails {
  import opened Wrappers
  import opened Api
  import Text
  import opened BrandBlocks
  import Queries
  import Uploads

  /** A gallery entry: the uploaded file's name and its URL. */
  datatype Asset = Asset(key: string, url: string)

  /** The two galleries as the block holds them; either may be missing. */
  datatype Galleries = Galleries(images: Option<seq<Asset>>, products: Option<seq<Asset>>)

  /** `IndustriesWeWorkWith` in the body: missing, an array, a string, or
    * another value, truthy or not. */
  datatype IndustriesField = NoIndustries | IndustryList(items: seq<string>) | IndustryText(text: string)
                           | IndustryOther(truthy: bool)

  datatype DetailsBody = DetailsBody(overview: Option<string>, openTime: Option<string>, closeTime: Option<string>,
                                     industries: IndustriesField)

  /** The update object the handler builds; a missing entry is a key it
    * does not set. */
  datatype Updates = Updates(industries: Option<seq<string>>, openTime: Option<string>, overview: Option<string>,
                             closeTime: Option<string>, products: Option<seq<Asset>>, images: Option<seq<Asset>>)

  const ImagesFolder: string := "brand_images"
  const ProductsFolder: string := "brand_products"

  // ---------------------------------------------------------------------
  // Access

  /** Only the owner or an admin may edit.  A block without an owner
    * throws when its owner is read, which the handler answers with 500. */
  function Access(blocks: seq<BrandBlock>, id: nat, user: nat, role: string): (r: Outcome<BrandBlock>)
    ensures r.Ok? <==>
      Lookup(blocks, id).Some? && Lookup(blocks, id).value.owner.Some?
      && (Lookup(blocks, id).value.owner.value == user || role == "admin")
    ensures r.Ok? ==> r.value == Lookup(blocks, id).value
    ensures Lookup(blocks, id).None? ==> r == Fail(NotFound, "Block not found.")
  {
    match Lookup(blocks, id)
    case None => Fail(NotFound, "Block not found.")
    case Some(b) =>
      if b.owner.None? then Fail(ServerError, OwnerUnreadable)
      else if b.owner.value != user && role != "admin" then Fail(Forbidden, "Not authorized to update this block.")
      else Ok(b)
  }

  // ---------------------------------------------------------------------
  // Uploads

  function CheckUpload(f: Uploads.File): (r: Outcome<()>)
    ensures r.Ok? <==> Text.StartsWith(f.mimetype, "image") && f.size <= Uploads.MaxImageBytes
    ensures r.Err? ==> r.error.status == BadRequest
  {
    if !Text.StartsWith(f.mimetype, "image") then Fail(BadRequest, "Please upload only image files.")
    else if f.size > Uploads.MaxImageBytes then Fail(BadRequest, "Each image must be less than 10MB.")
    else Ok(())
  }

  predicate AllImages(files: seq<Uploads.File>) {
    forall k :: 0 <= k < |files| ==> CheckUpload(files[k]).Ok?
  }

  /** The entries the uploads of `files` to `folder` add, in order. */
  function Assets(files: seq<Uploads.File>, folder: string, upload: (string, Uploads.File) -> string)
    : (r: seq<Asset>)
    ensures |r| == |files| && forall k :: 0 <= k < |files| ==> r[k].key == files[k].name
  {
    seq(|files|, k requires 0 <= k < |files| => Asset(files[k].name, upload(folder, files[k])))
  }

  /** One upload loop as intended: each file is checked, uploaded to
    * `folder` and its entry pushed onto `list`; the first file that is not
    * an acceptable image stops the request. */
  function UploadAll(list: seq<Asset>, files: seq<Uploads.File>, folder: string,
                     upload: (string, Uploads.File) -> string): (r: Outcome<seq<Asset>>)
    decreases |files|
  {
    if |files| == 0 then Ok(list)
    else
      var _ :- CheckUpload(files[0]);
      UploadAll(list + [Asset(files[0].name, upload(folder, files[0]))], files[1..], folder, upload)
  }

  /** A batch is acceptable exactly when its first file and the rest are. */
  lemma AllImagesCons(files: seq<Uploads.File>)
    requires |files| > 0
    ensures AllImages(files) <==> CheckUpload(files[0]).Ok? && AllImages(files[1..])
  {
    assert forall k :: 1 <= k < |files| ==> files[k] == files[1..][k - 1];
    if CheckUpload(files[0]).Ok? && AllImages(files[1..]) {
      forall k | 0 <= k < |files|
        ensures CheckUpload(files[k]).Ok?
      {
        if k > 0 {
          assert files[k] == files[1..][k - 1];
        }
      }
    }
  }

  lemma AssetsCons(files: seq<Uploads.File>, folder: string, upload: (string, Uploads.File) -> string)
    requires |files| > 0
    ensures Assets(files, folder, upload)
      == [Asset(files[0].name, upload(folder, files[0]))] + Assets(files[1..], folder, upload)
  {
    var lhs := Assets(files, folder, upload);
    var rhs := [Asset(files[0].name, upload(folder, files[0]))] + Assets(files[1..], folder, upload);
    forall k | 0 <= k < |files|
      ensures lhs[k] == rhs[k]
    {
      if k > 0 {
        assert files[k] == files[1..][k - 1];
      }
    }
  }

  /** The loop succeeds exactly on a batch of acceptable images, and then
    * appends one entry per file, in order. */
  lemma {:induction false} UploadAllSpec(list: seq<Asset>, files: seq<Uploads.File>, folder: string,
                                         upload: (string, Uploads.File) -> string)
    ensures UploadAll(list, files, folder, upload).Ok? <==> AllImages(files)
    ensures UploadAll(list, files, folder, upload).Ok? ==>
      UploadAll(list, files, folder, upload).value == list + Assets(files, folder, upload)
    ensures UploadAll(list, files, folder, upload).Err? ==>
      UploadAll(list, files, folder, upload).error.status == BadRequest
    decreases |files|
  {
    if |files| > 0 {
      var head := Asset(files[0].name, upload(folder, files[0]));
      var rest := UploadAll(list + [head], files[1..], folder, upload);
      UploadAllSpec(list + [head], files[1..], folder, upload);
      AllImagesCons(files);
      if CheckUpload(files[0]).Err? {
        assert UploadAll(list, files, folder, upload) == Err(CheckUpload(files[0]).error);
      } else {
        assert UploadAll(list, files, folder, upload) == rest;
        AssetsCons(files, folder, upload);
        assert list + [head] + Assets(files[1..], folder, upload) == list + Assets(files, folder, upload);
      }
    }
  }

  /** The same loop, pushing onto the list in place. */
  method UploadFiles(list: seq<Asset>, files: seq<Uploads.File>, folder: string,
                     upload: (string, Uploads.File) -> string) returns (r: Outcome<seq<Asset>>)
    ensures r == UploadAll(list, files, folder, upload)
  {
    var acc := list;
    var i := 0;
    while i < |files|
      invariant 0 <= i <= |files|
      invariant UploadAll(list, files, folder, upload) == UploadAll(acc, files[i..], folder, upload)
    {
      var f := files[i];
      assert files[i..][1..] == files[i + 1..];
      var c := CheckUpload(f);
      if c.Err? {
        return Err(c.error);
      }
      acc := acc + [Asset(f.name, upload(folder, f))];
      i := i + 1;
    }
    r := Ok(acc);
  }

  // ---------------------------------------------------------------------
  // The body

  /** `IndustriesWeWorkWith`: an array is kept, a string is split on
    * commas and each piece trimmed, a falsy value is skipped, and any
    * other value fails to split. */
  function IndustriesOf(f: IndustriesField): (r: Outcome<Option<seq<string>>>)
  {
    match f
    case NoIndustries => Ok(None)
    case IndustryList(items) => Ok(Some(items))
    case IndustryText(text) =>
      if |text| == 0 then Ok(None) else Ok(Some(Queries.TrimAll(Text.Split(text, ','))))
    case IndustryOther(truthy) =>
      if truthy then Fail(ServerError, "IndustriesWeWorkWith.split is not a function") else Ok(None)
  }

  /** A non-empty string becomes one trimmed piece per comma-separated
    * part, none holding a comma. */
  lemma IndustriesOfText(text: string)
    requires |text| > 0
    ensures var r := IndustriesOf(IndustryText(text));
      r.Ok? && r.value.Some? && |r.value.value| == |Text.Split(text, ',')|
      && (forall k :: 0 <= k < |r.value.value| ==>
            r.value.value[k] == Text.Trim(Text.Split(text, ',')[k]) && ',' !in r.value.value[k])
      && Text.Join(Text.Split(text, ','), ',') == text
  {
    var parts := Text.Split(text, ',');
    Text.SplitPartsFree(text, ',');
    forall k | 0 <= k < |parts|
      ensures ',' !in Text.Trim(parts[k])
    {
      Text.TrimSpec(parts[k]);
      var a, b :| 0 <= a <= b <= |parts[k]| && Text.Trim(parts[k]) == parts[k][a..b];
      assert forall i :: 0 <= i < b - a ==> Text.Trim(parts[k])[i] == parts[k][a + i];
    }
    Text.JoinSplit(text, ',');
  }

  /** The update object from the galleries and the body. */
  function Build(images: seq<Asset>, products: Option<seq<Asset>>, body: DetailsBody): (r: Outcome<Updates>)
  {
    var industries :- IndustriesOf(body.industries);
    Ok(Updates(industries, Queries.Given(body.openTime), Queries.Given(body.overview), Queries.Given(body.closeTime),
               products, Some(images)))
  }

  // ---------------------------------------------------------------------
  // The handler

  /** The upload loops as written: the image host's client is never
    * imported into this file, so the first file that passes the checks
    * throws a `ReferenceError`. */
  function UploadsAsWritten(files: seq<Uploads.File>): (r: Outcome<()>)
    ensures r.Ok? <==> |files| == 0
  {
    if |files| == 0 then Ok(())
    else
      var _ :- CheckUpload(files[0]);
      Fail(ServerError, "cloudinary is not defined")
  }

  /** `updateBrandDetailsById` as written.  The block schema declares
    * neither gallery, so `block.brandImagesUrl || []` is empty and
    * `block.brandProductsUrl` is missing; it declares none of the keys the
    * update object can hold either, so strict mode drops them all and the
    * block is answered as it was stored. */
  function UpdateDetailsAsWritten(blocks: seq<BrandBlock>, id: nat, user: nat, role: string,
                                  files: Option<seq<Uploads.File>>, body: DetailsBody): (r: Outcome<BrandBlock>)
    ensures var fs := if files.Some? then files.value else [];
      r.Ok? <==> Access(blocks, id, user, role).Ok? && |fs| == 0 && IndustriesOf(body.industries).Ok?
    ensures r.Ok? ==> r.value == Lookup(blocks, id).value
    ensures var fs := if files.Some? then files.value else [];
      Access(blocks, id, user, role).Ok? && |fs| > 0 && CheckUpload(fs[0]).Ok? ==>
        r == Fail(ServerError, "cloudinary is not defined")
  {
    var b :- Access(blocks, id, user, role);
    var _ :- UploadsAsWritten(if files.Some? then files.value else []);
    var _ :- Build([], None, body);
    Ok(b)
  }

  /** The product loop as intended: pushing onto a gallery the block does
    * not have throws. */
  function UploadProducts(stored: Option<seq<Asset>>, files: seq<Uploads.File>,
                          upload: (string, Uploads.File) -> string): (r: Outcome<Option<seq<Asset>>>)
  {
    if |files| == 0 then Ok(stored)
    else if stored.None? then
      var _ :- CheckUpload(files[0]);
      Fail(ServerError, "Cannot read properties of undefined (reading 'push')")
    else
      var p :- UploadAll(stored.value, files, ProductsFolder, upload);
      Ok(Some(p))
  }

  /** `updateBrandDetailsById` as intended: the image host's client
    * imported, and a block schema that declares both galleries, so that
    * `stored` is what the block holds, and the edited keys. */
  function UpdateDetails(blocks: seq<BrandBlock>, id: nat, user: nat, role: string, stored: Galleries,
                         files: Option<seq<Uploads.File>>, body: DetailsBody,
                         upload: (string, Uploads.File) -> string): (r: Outcome<Updates>)
  {
    var _ :- Access(blocks, id, user, role);
    var fs := if files.Some? then files.value else [];
    var images :- UploadAll(if stored.images.Some? then stored.images.value else [], fs, ImagesFolder, upload);
    var products :- UploadProducts(stored.products, fs, upload);
    Build(images, products, body)
  }

  /** With the client imported, an edit by the owner or an admin succeeds
    * exactly when every file is an acceptable image, a block given files
    * already has a product gallery, and the industries are not a truthy
    * non-string; the same files are then appended, in order, to both
    * galleries, and each body field enters the update only when truthy. */
  lemma UpdateDetailsSpec(blocks: seq<BrandBlock>, id: nat, user: nat, role: string, stored: Galleries,
                          files: Option<seq<Uploads.File>>, body: DetailsBody,
                          upload: (string, Uploads.File) -> string)
    requires Access(blocks, id, user, role).Ok?
    ensures var fs := if files.Some? then files.value else [];
      var r := UpdateDetails(blocks, id, user, role, stored, files, body, upload);
      (r.Ok? <==> AllImages(fs) && (|fs| > 0 ==> stored.products.Some?) && IndustriesOf(body.industries).Ok?)
      && (r.Ok? ==>
            r.value.images == Some((if stored.images.Some? then stored.images.value else [])
                                   + Assets(fs, ImagesFolder, upload))
            && (|fs| > 0 ==> r.value.products == Some(stored.products.value + Assets(fs, ProductsFolder, upload)))
            && (|fs| == 0 ==> r.value.products == stored.products)
            && r.value.overview == (if body.overview.Some? && |body.overview.value| > 0 then body.overview else None)
            && r.value.openTime == (if body.openTime.Some? && |body.openTime.value| > 0 then body.openTime else None)
            && r.value.closeTime == (if body.closeTime.Some? && |body.closeTime.value| > 0 then body.closeTime else None))
  {
    var fs := if files.Some? then files.value else [];
    var images := if stored.images.Some? then stored.images.value else [];
    UploadAllSpec(images, fs, ImagesFolder, upload);
    if stored.products.Some? {
      UploadAllSpec(stored.products.value, fs, ProductsFolder, upload);
    }
    if |fs| > 0 && !AllImages(fs) && CheckUpload(fs[0]).Ok? {
      assert UploadAll(images, fs, ImagesFolder, upload).Err?;
    }
  }

  /** Without files the two accept the same requests, but the handler as
    * written answers the block unchanged; on a request whose first file
    * is an acceptable image and that the intended handler accepts, the
    * handler as written answers 500 "cloudinary is not defined". */
  lemma UpdateDetailsDiscrepancy(blocks: seq<BrandBlock>, id: nat, user: nat, role: string, stored: Galleries,
                                 files: Option<seq<Uploads.File>>, body: DetailsBody,
                                 upload: (string, Uploads.File) -> string)
    ensures files.None? || files.value == [] ==>
      (UpdateDetailsAsWritten(blocks, id, user, role, files, body).Ok?
       <==> UpdateDetails(blocks, id, user, role, stored, files, body, upload).Ok?)
    ensures files.Some? && |files.value| > 0 && UpdateDetails(blocks, id, user, role, stored, files, body, upload).Ok? ==>
      UpdateDetailsAsWritten(blocks, id, user, role, files, body)
      == Fail(ServerError, "cloudinary is not defined")
  {
    if Access(blocks, id, user, role).Ok? {
      UpdateDetailsSpec(blocks, id, user, role, stored, files, body, upload);
    }
  }

  /** A concrete request: the owner adds one small PNG to a block whose
    * galleries, declared as intended, are both empty. */
  lemma UpdateDetailsWitness(b: BrandBlock, upload: (string, Uploads.File) -> string)
    requires b.owner == Some(7)
    ensures var files := Some([Uploads.File("a.png", "image/png", 100)]);
      var stored := Galleries(Some([]), Some([]));
      var body := DetailsBody(None, None, None, NoIndustries);
      UpdateDetails([b], b.id, 7, "brand", stored, files, body, upload).Ok?
      && UpdateDetailsAsWritten([b], b.id, 7, "brand", files, body) == Fail(ServerError, "cloudinary is not defined")
  {
    var files := [Uploads.File("a.png", "image/png", 100)];
    assert Text.StartsWith(files[0].mimetype, "image");
    UpdateDetailsSpec([b], b.id, 7, "brand", Galleries(Some([]), Some([])), Some(files),
                      DetailsBody(None, None, None, NoIndustries), upload);
  }

  /** Importing the client alone does not repair the handler: the block
    * schema declares no gallery, so a block reads both as missing, and an
    * allowed request whose files are all acceptable images fails when it
    * pushes onto the missing product gallery. */
  lemma ImportOnlyStillFails(blocks: seq<BrandBlock>, id: nat, user: nat, role: string,
                             files: seq<Uploads.File>, body: DetailsBody, upload: (string, Uploads.File) -> string)
    requires Access(blocks, id, user, role).Ok? && |files| > 0 && AllImages(files)
    ensures UpdateDetails(blocks, id, user, role, Galleries(None, None), Some(files), body, upload)
            == Fail(ServerError, "Cannot read properties of undefined (reading 'push')")
  {
    UploadAllSpec([], files, ImagesFolder, upload);
    assert CheckUpload(files[0]).Ok?;
  }
}
