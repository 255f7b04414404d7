/**
 * The item upload screen (src/screens/UploadScreen.tsx): picking an image,
 * asking the tagger for tags, and saving the item through the image upload
 * route and the clothes route.
 *
 * The permission prompt, the image library, the tagger, both backend calls
 * and the stored token are parameters: each one is the outcome the screen
 * sees. Alerts are recorded in order; the item POST bodies sent are recorded
 * in order; `navigation.goBack()` sets a flag.
 */
module UploadScreen {
  import opened Common
  import UploadRoutes
  import ClothesRoutes

  const JpegHead := "data:image/jpeg;base64,"
  const PermissionMessage := "Permission required"
  const LabelMessage := "Please enter a name for your item."
  const CategoryMessage := "Please select a category."
  const ImageMessage := "Please pick an image first."
  const NotAuthenticatedMessage := "User not authenticated"
  const UploadFailedPrefix := "Upload failed: "
  const SaveFailedMessage := "Save failed"
  const ImageUploadFailedMessage := "Image upload failed"

  /** One picked asset: its base64 payload and its local URI. */
  datatype Asset = Asset(base64: string, uri: string)

  /** What `fetchTagsFromTagger` sees: an exception, a non-ok status, or a JSON body's `tags` field. */
  datatype TaggerReply = TaggerThrew | TaggerNotOk(status: int) | TaggerOk(tags: TagsField)

  /** What `uploadImageToNode` sees: an exception, a non-ok status, or a JSON body's `url` field. */
  datatype NodeReply = NodeThrew | NodeNotOk(status: int) | NodeOk(url: Option<string>)

  /** What the item POST yields: an exception with its message, a non-ok body's `error` field, or success. */
  datatype PostReply = PostThrew(message: string) | PostNotOk(error: Option<string>) | PostOk

  /** The JSON body of the item POST. */
  datatype ItemPost = ItemPost(labelText: string, category: string, imageUrl: string, tags: seq<string>)

  /** The data URL stored for a picked image; the backend's prefix strip recovers the payload exactly. */
  function DataUrl(payload: string): (r: string)
    ensures UploadRoutes.StripDataUrlPrefix(r) == payload
  {
    assert UploadRoutes.IsWord("jpeg");
    assert JpegHead == UploadRoutes.DataUrlHead + "jpeg" + UploadRoutes.Base64Marker;
    UploadRoutes.StripRoundTrip("jpeg", payload);
    JpegHead + payload
  }

  /** The tag list set from a tagger reply: its `tags` when that is an array, otherwise empty. */
  function TagsFromReply(reply: TaggerReply): (r: seq<string>)
    ensures reply.TaggerOk? && reply.tags.AnArray? ==> r == reply.tags.values
    ensures !(reply.TaggerOk? && reply.tags.AnArray?) ==> r == []
  {
    match reply
    case TaggerOk(AnArray(ts)) => ts
    case _ => []
  }

  /** `uploadImageToNode`: null without an image, on a non-ok status and on an exception; else `data.url`. */
  function UploadResult(image: Option<string>, reply: NodeReply): (r: Option<string>)
    ensures r.Some? <==> Truthy(image) && reply.NodeOk? && reply.url.Some?
    ensures r.Some? ==> r == reply.url
  {
    if !Truthy(image) then None
    else match reply
      case NodeOk(url) => url
      case _ => None
  }

  /**
   * The form guards in order: blank name, then no category, then no image;
   * `None` when all pass. The name test is written with `AllWhitespace`,
   * which `FormAlertOrder` shows to agree with the `trim()` test.
   */
  function FormAlert(labelText: string, category: string, image: Option<string>): Option<string> {
    if AllWhitespace(labelText) then Some(LabelMessage)
    else if category == "" then Some(CategoryMessage)
    else if !Truthy(image) then Some(ImageMessage)
    else None
  }

  /**
   * The guards pass exactly when the trimmed name is non-empty, a category is
   * chosen and an image is picked; otherwise the first failing guard's message
   * is shown.
   */
  lemma FormAlertOrder(labelText: string, category: string, image: Option<string>)
    ensures FormAlert(labelText, category, image).None? <==> Trim(labelText) != "" && category != "" && Truthy(image)
    ensures Trim(labelText) == "" ==> FormAlert(labelText, category, image) == Some(LabelMessage)
    ensures Trim(labelText) != "" && category == "" ==> FormAlert(labelText, category, image) == Some(CategoryMessage)
    ensures Trim(labelText) != "" && category != "" && !Truthy(image) ==>
      FormAlert(labelText, category, image) == Some(ImageMessage)
  {
    TrimEmptyIffBlank(labelText);
  }

  /** The message of the error a failed POST throws: its own message, or `err.error || 'Save failed'`. */
  function PostFailure(reply: PostReply): (r: string)
    ensures reply.PostThrew? ==> r == reply.message
    ensures reply.PostNotOk? && Truthy(reply.error) ==> r == reply.error.value
    ensures reply.PostNotOk? && !Truthy(reply.error) ==> r == SaveFailedMessage
  {
    match reply
    case PostThrew(m) => m
    case PostNotOk(e) => if Truthy(e) then e.value else SaveFailedMessage
    case PostOk => ""
  }

  /** The POST body as the clothes route reads it. */
  function AsItemBody(p: ItemPost): ClothesRoutes.ItemBody {
    ClothesRoutes.ItemBody(Some(p.labelText), Some(p.category), Some(p.imageUrl), Some(p.tags), None)
  }

  /** A body this screen sends always passes the clothes route's required-field check, with its tags kept. */
  lemma SentBodyAccepted(p: ItemPost)
    requires Trim(p.labelText) != "" && p.category != "" && p.imageUrl != ""
    ensures ClothesRoutes.HasRequiredFields(AsItemBody(p))
    ensures AsItemBody(p).tags == Some(p.tags)
  {
    TrimEmptyIffBlank(p.labelText);
  }

  /** What one press of the save button does: the alert shown, the POST body sent, and whether it goes back. */
  datatype SaveEffect = SaveEffect(alert: Option<string>, sent: Option<ItemPost>, goBack: bool)

  function AsSeq<T>(o: Option<T>): (r: seq<T>)
    ensures o.None? ==> r == []
    ensures o.Some? ==> r == [o.value]
  {
    if o.Some? then [o.value] else []
  }

  /**
   * The effect of the `try` block of `saveClothingItem`, entered with the
   * guards passed: exactly one of these happens. The missing token alerts;
   * the image upload fails and "Upload failed: Image upload failed" is
   * alerted; or the item is POSTed with the uploaded URL, after which the
   * screen goes back on success and alerts the failure's message otherwise.
   */
  function TryEffect(labelText: string, category: string, image: Option<string>, tags: seq<string>,
                     token: Option<string>, node: NodeReply, post: PostReply): (r: SaveEffect)
    ensures r.sent.Some? <==> Truthy(token) && Truthy(UploadResult(image, node))
    ensures r.sent.Some? ==> r.sent.value == ItemPost(labelText, category, UploadResult(image, node).value, tags)
    ensures r.goBack <==> r.sent.Some? && post.PostOk?
    ensures r.alert.None? <==> r.goBack
    ensures !Truthy(token) ==> r.alert == Some(NotAuthenticatedMessage)
    ensures Truthy(token) && !Truthy(UploadResult(image, node)) ==>
      r.alert == Some(UploadFailedPrefix + ImageUploadFailedMessage)
    ensures r.sent.Some? && !post.PostOk? ==> r.alert == Some(UploadFailedPrefix + PostFailure(post))
  {
    if !Truthy(token) then SaveEffect(Some(NotAuthenticatedMessage), None, false)
    else if !Truthy(UploadResult(image, node)) then
      SaveEffect(Some(UploadFailedPrefix + ImageUploadFailedMessage), None, false)
    else
      var body := ItemPost(labelText, category, UploadResult(image, node).value, tags);
      if post.PostOk? then SaveEffect(None, Some(body), true)
      else SaveEffect(Some(UploadFailedPrefix + PostFailure(post)), Some(body), false)
  }

  /**
   * The effect of `saveClothingItem` on a screen that is (`busy`) or is not
   * already uploading: a busy screen does nothing; a failed guard alerts and
   * sends nothing; otherwise the `try` block runs. In particular a body is
   * sent only when the guards pass, a token is present and the image upload
   * returned a URL.
   */
  function SaveEffectOf(busy: bool, labelText: string, category: string, image: Option<string>, tags: seq<string>,
                        token: Option<string>, node: NodeReply, post: PostReply): SaveEffect
  {
    if busy then SaveEffect(None, None, false)
    else if FormAlert(labelText, category, image).Some? then SaveEffect(FormAlert(labelText, category, image), None, false)
    else TryEffect(labelText, category, image, tags, token, node, post)
  }

  /**
   * A press while busy does nothing; a body is sent exactly when the screen
   * is idle, the guards pass, a token is present and the image upload
   * returned a URL, and it carries that URL; the screen goes back only after
   * a successful POST, and every other idle press shows exactly one alert.
   */
  lemma SaveEffectCases(busy: bool, labelText: string, category: string, image: Option<string>, tags: seq<string>,
                        token: Option<string>, node: NodeReply, post: PostReply)
    ensures var e := SaveEffectOf(busy, labelText, category, image, tags, token, node, post);
      && (busy ==> e == SaveEffect(None, None, false))
      && (e.sent.Some? <==>
            !busy && FormAlert(labelText, category, image).None? && Truthy(token) && Truthy(UploadResult(image, node)))
      && (e.sent.Some? ==> e.sent.value == ItemPost(labelText, category, UploadResult(image, node).value, tags))
      && (e.goBack <==> e.sent.Some? && post.PostOk?)
      && (e.alert.None? <==> busy || e.goBack)
  {
  }

  /** A body sent by a save passes the clothes route's required-field check. */
  lemma SavedBodyAccepted(busy: bool, labelText: string, category: string, image: Option<string>, tags: seq<string>,
                          token: Option<string>, node: NodeReply, post: PostReply)
    ensures var e := SaveEffectOf(busy, labelText, category, image, tags, token, node, post);
      e.sent.Some? ==> ClothesRoutes.HasRequiredFields(AsItemBody(e.sent.value))
  {
    var e := SaveEffectOf(busy, labelText, category, image, tags, token, node, post);
    if e.sent.Some? {
      TrimEmptyIffBlank(labelText);
      SentBodyAccepted(e.sent.value);
    }
  }

  class UploadForm {
    var labelText: string
    var category: string
    var imageBase64: Option<string>
    var imageUri: Option<string>
    var tags: seq<string>
    var uploading: bool
    var tagging: bool
    var alerts: seq<string>
    var posts: seq<ItemPost>
    var wentBack: bool

    /** The screen as it opens: every field empty, nothing in progress. */
    constructor ()
      ensures labelText == "" && category == "" && imageBase64 == None && imageUri == None && tags == []
      ensures !uploading && !tagging && alerts == [] && posts == [] && !wentBack
    {
      labelText := "";
      category := "";
      imageBase64 := None;
      imageUri := None;
      tags := [];
      uploading := false;
      tagging := false;
      alerts := [];
      posts := [];
      wentBack := false;
    }

    /** `fetchTagsFromTagger`: the tags become the reply's tag array or empty; tagging ends false. */
    method FetchTags(reply: TaggerReply)
      modifies this
      ensures tags == TagsFromReply(reply) && !tagging
      ensures labelText == old(labelText) && category == old(category)
      ensures imageBase64 == old(imageBase64) && imageUri == old(imageUri)
      ensures uploading == old(uploading) && alerts == old(alerts) && posts == old(posts)
      ensures wentBack == old(wentBack)
    {
      tagging := true;
      match reply {
        case TaggerNotOk(_) =>
          tags := [];
        case TaggerOk(field) =>
          if field.AnArray? {
            tags := field.values;
          } else {
            tags := [];
          }
        case TaggerThrew =>
          tags := [];
      }
      tagging := false;
    }

    /**
     * `pickImage`: without permission only an alert; a cancelled or empty pick
     * changes nothing; otherwise the first asset becomes the image (as a JPEG
     * data URL) and the tagger's reply sets the tags.
     */
    method PickImage(granted: bool, canceled: bool, assets: seq<Asset>, tagger: TaggerReply)
      modifies this
      ensures !granted ==> alerts == old(alerts) + [PermissionMessage]
      ensures granted ==> alerts == old(alerts)
      ensures granted && !canceled && |assets| > 0 ==>
        && imageBase64 == Some(DataUrl(assets[0].base64))
        && imageUri == Some(assets[0].uri)
        && tags == TagsFromReply(tagger)
      ensures !(granted && !canceled && |assets| > 0) ==>
        imageBase64 == old(imageBase64) && imageUri == old(imageUri) && tags == old(tags)
      ensures labelText == old(labelText) && category == old(category)
      ensures granted && !canceled && |assets| > 0 ==> !tagging
      ensures !(granted && !canceled && |assets| > 0) ==> tagging == old(tagging)
      ensures uploading == old(uploading) && posts == old(posts) && wentBack == old(wentBack)
    {
      if !granted {
        alerts := alerts + [PermissionMessage];
        return;
      }
      if !canceled && |assets| > 0 {
        var asset := assets[0];
        imageBase64 := Some(DataUrl(asset.base64));
        imageUri := Some(asset.uri);
        FetchTags(tagger);
      }
    }

    /**
     * `saveClothingItem`: its alert, the body it sends and whether it goes
     * back are those of `SaveEffectOf`. The uploading flag it sets after the
     * guards is false again on every exit.
     */
    method Save(token: Option<string>, node: NodeReply, post: PostReply)
      modifies this
      ensures labelText == old(labelText) && category == old(category) && tags == old(tags)
      ensures imageBase64 == old(imageBase64) && imageUri == old(imageUri) && tagging == old(tagging)
      ensures uploading == old(uploading)
      ensures var e := SaveEffectOf(old(uploading), labelText, category, imageBase64, tags, token, node, post);
        && alerts == old(alerts) + AsSeq(e.alert)
        && posts == old(posts) + AsSeq(e.sent)
        && wentBack == (old(wentBack) || e.goBack)
    {
      if uploading {
        return;
      }
      var guard := FormAlert(labelText, category, imageBase64);
      if guard.Some? {
        alerts := alerts + [guard.value];
        return;
      }
      uploading := true;
      Submit(token, node, post);
      uploading := false;
    }

    /**
     * The `try` block of `saveClothingItem`, entered with the guards passed:
     * the token check, the image upload, and the item POST.
     */
    method Submit(token: Option<string>, node: NodeReply, post: PostReply)
      modifies this
      ensures labelText == old(labelText) && category == old(category) && tags == old(tags)
      ensures imageBase64 == old(imageBase64) && imageUri == old(imageUri) && tagging == old(tagging)
      ensures uploading == old(uploading)
      ensures var e := TryEffect(labelText, category, imageBase64, tags, token, node, post);
        && alerts == old(alerts) + AsSeq(e.alert)
        && posts == old(posts) + AsSeq(e.sent)
        && wentBack == (old(wentBack) || e.goBack)
    {
      if !Truthy(token) {
        alerts := alerts + [NotAuthenticatedMessage];
        return;
      }
      var imageUrl := UploadResult(imageBase64, node);
      if !Truthy(imageUrl) {
        alerts := alerts + [UploadFailedPrefix + ImageUploadFailedMessage];
        return;
      }
      posts := posts + [ItemPost(labelText, category, imageUrl.value, tags)];
      if post.PostOk? {
        wentBack := true;
      } else {
        alerts := alerts + [UploadFailedPrefix + PostFailure(post)];
      }
    }
  }
}
