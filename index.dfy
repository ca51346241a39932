/**
 * The application driver (app/index.js): from the outcome of fetching the post
 * manifest and the `id` read from the address, choose exactly one view and
 * write it to the shared output region.
 */
module Index {
  import opened Wrappers
  import opened Utils
  import opened Render

  /** The message shown when the manifest cannot be loaded. */
  const PostsErrorMessage := "Error loading posts."

  /** The four views the driver can choose. */
  datatype View =
    | ListView(posts: seq<Post>)
    | PostView(filename: string)
    | NotFoundView
    | ErrorView(message: string)

  /** JavaScript truthiness of the value `getPostIdFromUrl` returns (a string or `null`):
      `null` and `""` are falsy, every other string (also `"0"`) is truthy. */
  predicate Truthy(postId: Option<string>)
    ensures Truthy(postId) <==> postId != None && postId != Some("")
  {
    postId.Some? && postId.value != ""
  }

  /** The branching inside `initBlog`. */
  function ChooseView(manifest: Result<seq<Post>, string>, postId: Option<string>): (v: View)
    ensures manifest.Failure? ==> v == ErrorView(PostsErrorMessage)
    ensures manifest.Success? && !Truthy(postId) ==> v == ListView(manifest.value)
    ensures manifest.Success? && Truthy(postId) ==>
      var posts := manifest.value;
      (v.NotFoundView? <==> forall j :: 0 <= j < |posts| ==> !Matches(posts[j], Str(postId.value)))
      && (v.PostView? <==> exists j :: 0 <= j < |posts| && Matches(posts[j], Str(postId.value)))
      && (v.PostView? ==> exists i :: 0 <= i < |posts| && v.filename == posts[i].filename
                            && Canon(posts[i].id) == postId.value
                            && forall j :: 0 <= j < i ==> !Matches(posts[j], Str(postId.value)))
  {
    match manifest
    case Failure(_) => ErrorView(PostsErrorMessage)
    case Success(posts) =>
      if Truthy(postId) then
        match FindPostById(posts, Str(postId.value))
        case Some(post) => PostView(post.filename)
        case None => NotFoundView
      else ListView(posts)
  }

  /** The text each view writes to the output region. Apart from an error view
      (whose message may be "Post not found"), only the not-found view writes the
      not-found text. */
  function ViewHtml(v: View, fetch: string -> Result<string, string>,
                    convert: string -> Result<string, string>): (html: string)
    ensures !v.ErrorView? ==> (html == NotFoundHtml <==> v.NotFoundView?)
  {
    match v
    case ListView(posts) =>
      ListVersusViews(posts, "", "");
      PostListHtml(posts)
    case PostView(filename) =>
      var f := fetch(ContentPath(filename));
      if f.Success? && convert(f.value).Success? then
        PostVersusError(convert(f.value).value, "");
        LoadedHtml(filename, fetch, convert)
      else
        NotFoundShowsPhrase(LoadErrorMessage);
        LoadedHtml(filename, fetch, convert)
    case NotFoundView => NotFoundHtml
    case ErrorView(message) => ErrorHtml(message)
  }

  /** `initBlog()`, with the manifest fetch, the address's `id`, the content fetch
      and the markdown converter supplied as inputs. It writes the region once. */
  method InitBlog(contentArea: ContentArea, manifest: Result<seq<Post>, string>,
                  postId: Option<string>, fetch: string -> Result<string, string>,
                  convert: string -> Result<string, string>)
    modifies contentArea
    ensures contentArea.innerHTML == ViewHtml(ChooseView(manifest, postId), fetch, convert)
    ensures contentArea.writes == old(contentArea.writes) + 1
  {
    if manifest.Failure? {
      contentArea.ShowError(PostsErrorMessage);
    } else {
      var posts := manifest.value;
      if Truthy(postId) {
        var post := FindPostById(posts, Str(postId.value));
        if post.Some? {
          contentArea.LoadPost(post.value.filename, fetch, convert);
        } else {
          contentArea.ShowNotFound();
        }
      } else {
        contentArea.RenderPostList(posts);
      }
    }
  }

  /** Following a list card's link reaches its post: when the address's `id` is the
      text the card links to (see `PostListShowsEveryPost`) and no earlier post
      shares it, the driver loads that post. Assumes the browser hands the link's
      text back unchanged. */
  lemma LinkLeadsToPost(posts: seq<Post>, k: nat)
    requires k < |posts|
    requires Canon(posts[k].id) != ""
    requires forall j :: 0 <= j < k ==> Canon(posts[j].id) != Canon(posts[k].id)
    ensures ChooseView(Success(posts), Some(Canon(posts[k].id))) == PostView(posts[k].filename)
  {
    var id := Str(Canon(posts[k].id));
    assert FindIndex(posts, id) == Some(k);
  }

  /** The manifest failing, the list, a found post and a missing post are four
      different outcomes, and the text written tells them apart. */
  lemma OutcomesDistinct(manifest: Result<seq<Post>, string>, postId: Option<string>,
                         fetch: string -> Result<string, string>,
                         convert: string -> Result<string, string>)
    requires manifest.Success?
    ensures ViewHtml(ChooseView(manifest, postId), fetch, convert) != ErrorHtml(PostsErrorMessage)
    ensures var html := ViewHtml(ChooseView(manifest, postId), fetch, convert);
      html == NotFoundHtml <==> ChooseView(manifest, postId).NotFoundView?
  {
    var v := ChooseView(manifest, postId);
    var html := ViewHtml(v, fetch, convert);
    NotFoundShowsPhrase(PostsErrorMessage);
    NotFoundShowsPhrase(LoadErrorMessage);
    ErrorHtmlShowsMessage(PostsErrorMessage, LoadErrorMessage);
    match v
    case ListView(posts) =>
      ListVersusViews(posts, "", PostsErrorMessage);
    case PostView(filename) =>
      var f := fetch(ContentPath(filename));
      if f.Success? && convert(f.value).Success? {
        PostVersusError(convert(f.value).value, PostsErrorMessage);
      }
    case NotFoundView =>
    case ErrorView(_) =>
  }

  /** The address `?id=0` looks up the post whose numeric id is 0: only `null`
      and the empty string fall back to the list. */
  lemma ZeroIdIsLookedUp(manifestPosts: seq<Post>)
    ensures ChooseView(Success([Post(Num(0), "", "", "", "zero.md")]), Some("0")) == PostView("zero.md")
    ensures ChooseView(Success(manifestPosts), Some("")) == ListView(manifestPosts)
    ensures ChooseView(Success(manifestPosts), None) == ListView(manifestPosts)
  {
    assert Canon(Num(0)) == "0";
  }
}
