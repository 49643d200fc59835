/** The results grid: a local copy of the generated list, the image open in
    the editor, and the update-by-id the editor reports its edits through. */
module ResultGallery {
  import opened Wrappers
  import opened Types
  import GeminiService
  import EditorModal

  /** The element rewrite of `handleUpdateImage`'s `map`. */
  function WithUrlIfMatch(img: GeneratedImage, id: string, newUrl: string): GeneratedImage {
    if img.id == id then img.(imageUrl := newUrl) else img
  }

  /** `prev.map(img => img.id === id ? { ...img, imageUrl: newUrl } : img)`:
      same length and order; every entry keeps all fields but `imageUrl`,
      which becomes `newUrl` exactly on the entries carrying `id`. */
  function ReplaceUrl(images: seq<GeneratedImage>, id: string, newUrl: string): (r: seq<GeneratedImage>)
    ensures |r| == |images|
    ensures forall i :: 0 <= i < |r| ==> r[i] == images[i].(imageUrl := r[i].imageUrl)
    ensures forall i :: 0 <= i < |r| ==>
      r[i].imageUrl == if images[i].id == id then newUrl else images[i].imageUrl
  {
    seq(|images|, i requires 0 <= i < |images| => WithUrlIfMatch(images[i], id, newUrl))
  }

  /** The ids, and so the order of the cards, are kept. */
  lemma ReplaceUrlKeepsIds(images: seq<GeneratedImage>, id: string, newUrl: string)
    ensures var r := ReplaceUrl(images, id, newUrl);
            forall i :: 0 <= i < |r| ==> r[i].id == images[i].id
  {
    var r := ReplaceUrl(images, id, newUrl);
    forall i | 0 <= i < |r| ensures r[i].id == images[i].id {
      assert r[i] == images[i].(imageUrl := r[i].imageUrl);
    }
  }

  /** Entries with another id are left exactly as they were. */
  lemma ReplaceUrlLeavesOthers(images: seq<GeneratedImage>, id: string, newUrl: string)
    ensures var r := ReplaceUrl(images, id, newUrl);
            forall i :: 0 <= i < |r| && images[i].id != id ==> r[i] == images[i]
  {
    var r := ReplaceUrl(images, id, newUrl);
    forall i | 0 <= i < |r| && images[i].id != id ensures r[i] == images[i] {
      assert r[i] == images[i].(imageUrl := r[i].imageUrl);
    }
  }

  /** An id no entry carries leaves the whole list unchanged. */
  lemma ReplaceUrlUnknownId(images: seq<GeneratedImage>, id: string, newUrl: string)
    requires forall i :: 0 <= i < |images| ==> images[i].id != id
    ensures ReplaceUrl(images, id, newUrl) == images
  {
    ReplaceUrlLeavesOthers(images, id, newUrl);
  }

  /** Applying the same update twice is the same as applying it once. */
  lemma ReplaceUrlIdempotent(images: seq<GeneratedImage>, id: string, newUrl: string)
    ensures ReplaceUrl(ReplaceUrl(images, id, newUrl), id, newUrl) == ReplaceUrl(images, id, newUrl)
  {
    var once := ReplaceUrl(images, id, newUrl);
    var twice := ReplaceUrl(once, id, newUrl);
    ReplaceUrlKeepsIds(images, id, newUrl);
    forall i | 0 <= i < |twice| ensures twice[i] == once[i] {
      assert twice[i] == once[i].(imageUrl := twice[i].imageUrl);
    }
  }

  /** The component's state. */
  class GalleryState {
    var galleryImages: seq<GeneratedImage>
    var selectedImage: Option<GeneratedImage>

    /** The image open in the editor is one of the cards. */
    predicate Valid()
      reads this
    {
      selectedImage.Some? ==> selectedImage.value in galleryImages
    }

    /** `useState(results)` and no image selected. */
    constructor (results: seq<GeneratedImage>)
      ensures Valid()
      ensures galleryImages == results && selectedImage == None
    {
      galleryImages := results;
      selectedImage := None;
    }

    /** A card's "Edit with AI" or fullscreen button. */
    method SelectImage(k: nat)
      requires Valid() && k < |galleryImages|
      modifies this
      ensures Valid()
      ensures selectedImage == Some(old(galleryImages)[k]) && galleryImages == old(galleryImages)
    {
      selectedImage := Some(galleryImages[k]);
    }

    /** The modal's `onClose`. */
    method CloseEditor()
      requires Valid()
      modifies this
      ensures Valid()
      ensures selectedImage == None && galleryImages == old(galleryImages)
    {
      selectedImage := None;
    }

    /** `handleUpdateImage(id, newUrl)`: the list is rewritten by id, and the
        selected image follows when it carries that id. */
    method HandleUpdateImage(id: string, newUrl: string)
      requires Valid()
      modifies this
      ensures Valid()
      ensures galleryImages == ReplaceUrl(old(galleryImages), id, newUrl)
      ensures old(selectedImage).Some? && old(selectedImage).value.id == id ==>
        selectedImage == Some(old(selectedImage).value.(imageUrl := newUrl))
      ensures !(old(selectedImage).Some? && old(selectedImage).value.id == id) ==>
        selectedImage == old(selectedImage)
    {
      var images := galleryImages;
      galleryImages := ReplaceUrl(images, id, newUrl);
      if selectedImage.Some? && selectedImage.value.id == id {
        selectedImage := Some(selectedImage.value.(imageUrl := newUrl));
      }
      if selectedImage.Some? {
        ghost var k :| 0 <= k < |images| && images[k] == old(selectedImage).value;
        assert galleryImages[k] == selectedImage.value;
      }
    }
  }

  /** One edit in the modal opened on the selected card, with
      `onUpdateImage={handleUpdateImage}`: when the edit reports a new URL,
      every card carrying the edited image's id and the selected image take
      it; otherwise the gallery is unchanged. */
  method EditInModal(gallery: GalleryState, editor: EditorModal.EditorState, client: GeminiService.Client)
    requires gallery.Valid()
    modifies gallery, editor
    ensures gallery.Valid()
    ensures editor.State() == EditorModal.Edit(old(editor.State()), client).after
    ensures editor.updateCalls == old(editor.updateCalls) +
      match EditorModal.Edit(old(editor.State()), client).notified
      case Some(url) => [(editor.image.id, url)]
      case None => []
    ensures match EditorModal.Edit(old(editor.State()), client).notified
      case Some(url) =>
        && gallery.galleryImages == ReplaceUrl(old(gallery.galleryImages), editor.image.id, url)
        && (old(gallery.selectedImage).Some? && old(gallery.selectedImage).value.id == editor.image.id ==>
              gallery.selectedImage == Some(old(gallery.selectedImage).value.(imageUrl := url)))
        && (!(old(gallery.selectedImage).Some? && old(gallery.selectedImage).value.id == editor.image.id) ==>
              gallery.selectedImage == old(gallery.selectedImage))
      case None =>
        gallery.galleryImages == old(gallery.galleryImages) && gallery.selectedImage == old(gallery.selectedImage)
  {
    var before := |editor.updateCalls|;
    editor.HandleEdit(client);
    if |editor.updateCalls| > before {
      var call := editor.updateCalls[before];
      gallery.HandleUpdateImage(call.0, call.1);
    }
  }
}
