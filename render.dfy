/**
 * View rendering (app/render.js). Every view overwrites the one output region,
 * `contentArea.innerHTML`, with a string built only from the view's arguments.
 * HTML is treated as plain text: nothing is parsed or escaped.
 */
module Render {
  import opened Wrappers
  import opened Utils

  /** `t` occurs in `s` starting at index `i`. */
  predicate OccursAt(s: string, t: string, i: int)
  {
    0 <= i <= |s| - |t| && s[i..i + |t|] == t
  }

  /** `s` holds `t` as a contiguous substring (`String.prototype.includes`). */
  predicate Contains(s: string, t: string)
  {
    exists i | 0 <= i <= |s| :: OccursAt(s, t, i)
  }

  lemma ContainsEnd(s: string, t: string)
    ensures Contains(s + t, t)
  {
    assert (s + t)[|s|..|s| + |t|] == t;
    assert OccursAt(s + t, t, |s|);
  }

  lemma ContainsAppend(s: string, t: string, y: string)
    requires Contains(s, t)
    ensures Contains(s + y, t)
  {
    var i :| 0 <= i <= |s| && OccursAt(s, t, i);
    assert (s + y)[i..i + |t|] == s[i..i + |t|];
    assert OccursAt(s + y, t, i);
  }

  lemma ContainsPrepend(x: string, s: string, t: string)
    requires Contains(s, t)
    ensures Contains(x + s, t)
  {
    var i :| 0 <= i <= |s| && OccursAt(s, t, i);
    assert (x + s)[|x| + i..|x| + i + |t|] == s[i..i + |t|];
    assert OccursAt(x + s, t, |x| + i);
  }

  lemma ContainsInside(a: string, x: string, s: string, y: string, b: string, t: string)
    requires Contains(s, t)
    ensures Contains(a + (x + s + y) + b, t)
  {
    ContainsPrepend(x, s, t);
    ContainsAppend(x + s, t, y);
    ContainsPrepend(a, x + s + y, t);
    ContainsAppend(a + (x + s + y), t, b);
  }

  /** Concatenation regroups freely. */
  lemma ConcatAssoc(a: string, b: string, c: string)
    ensures (a + b) + c == a + (b + c)
  {
  }

  /** A text made of fixed parts `a`..`e` with holes `t`, `u`, `v`, `w` holds each hole. */
  lemma TemplateHoldsHoles(a: string, t: string, b: string, u: string, c: string,
                           v: string, d: string, w: string, e: string)
    ensures Contains(a + t + b + u + c + v + d + w + e, t)
    ensures Contains(a + t + b + u + c + v + d + w + e, u)
    ensures Contains(a + t + b + u + c + v + d + w + e, v)
    ensures Contains(a + t + b + u + c + v + d + w + e, w)
  {
    ContainsEnd(a, t);
    ContainsAppend(a + t, t, b);
    ContainsAppend(a + t + b, t, u);
    ContainsEnd(a + t + b, u);
    ContainsAppend(a + t + b + u, t, c);
    ContainsAppend(a + t + b + u, u, c);
    ContainsAppend(a + t + b + u + c, t, v);
    ContainsAppend(a + t + b + u + c, u, v);
    ContainsEnd(a + t + b + u + c, v);
    ContainsAppend(a + t + b + u + c + v, t, d);
    ContainsAppend(a + t + b + u + c + v, u, d);
    ContainsAppend(a + t + b + u + c + v, v, d);
    ContainsAppend(a + t + b + u + c + v + d, t, w);
    ContainsAppend(a + t + b + u + c + v + d, u, w);
    ContainsAppend(a + t + b + u + c + v + d, v, w);
    ContainsEnd(a + t + b + u + c + v + d, w);
    ContainsAppend(a + t + b + u + c + v + d + w, t, e);
    ContainsAppend(a + t + b + u + c + v + d + w, u, e);
    ContainsAppend(a + t + b + u + c + v + d + w, v, e);
    ContainsAppend(a + t + b + u + c + v + d + w, w, e);
  }

  /** The hole of a text `pre + x + post` sits right after `pre`. */
  lemma HoleAt(pre: string, x: string, post: string)
    ensures |pre + x + post| == |pre| + |x| + |post|
    ensures (pre + x + post)[|pre|..|pre| + |x|] == x
  {
  }

  /** A fixed prefix and suffix around a hole determine the hole. */
  lemma FrameInjective(pre: string, x: string, y: string, post: string)
    requires pre + x + post == pre + y + post
    ensures x == y
  {
    var sx, sy := pre + x + post, pre + y + post;
    assert |x| == |y|;
    assert sx[|pre|..|pre| + |x|] == x;
    assert sy[|pre|..|pre| + |y|] == y;
  }

  // ---- the list view (app/render.js:2-23) ----

  const RowOpen := "<div class=\"row\">"
  const RowClose := "</div>"

  const CardHead := "\n        <div class=\"col s12 m6\">\n            <div class=\"card blue-grey darken-1\">\n                <div class=\"card-content white-text\">\n                    <span class=\"card-title\">"
  const CardAfterTitle := "</span>\n                    <p>"
  const CardAfterSummary := "</p>\n                    <br>\n                    <small>"
  const CardAfterDate := "</small>\n                </div>\n                <div class=\"card-action\">\n                    <a href=\""
  const CardTail := "\">Read More</a>\n                </div>\n            </div>\n        </div>\n        "

  /** The card fragment appended for one post; the link's query is `?id=` and `String(post.id)`. */
  function Card(p: Post): string
  {
    CardHead + p.title + CardAfterTitle + p.summary + CardAfterSummary + p.date
      + CardAfterDate + ("?id=" + Canon(p.id)) + CardTail
  }

  /** The texts `f(xs[0])`, ..., `f(xs[|xs| - 1])` one after the other, built from the left. */
  function Joined<T>(xs: seq<T>, f: T -> string): string
  {
    if xs == [] then "" else Joined(xs[..|xs| - 1], f) + f(xs[|xs| - 1])
  }

  /** The cards of `posts`, in order, as the loop of `renderPostList` accumulates them. */
  function Cards(posts: seq<Post>): string
  {
    Joined(posts, Card)
  }

  /** The whole list view. */
  function PostListHtml(posts: seq<Post>): string
  {
    RowOpen + Cards(posts) + RowClose
  }

  /** A card shows the post's title, summary and date and links to `?id=<id>`. */
  lemma CardShowsPost(p: Post)
    ensures Contains(Card(p), p.title)
    ensures Contains(Card(p), p.summary)
    ensures Contains(Card(p), p.date)
    ensures Contains(Card(p), "?id=" + Canon(p.id))
  {
    TemplateHoldsHoles(CardHead, p.title, CardAfterTitle, p.summary, CardAfterSummary, p.date,
                       CardAfterDate, "?id=" + Canon(p.id), CardTail);
  }

  /** Joining two lists one after the other is joining their concatenation. */
  lemma {:induction false} JoinedAppend<T>(a: seq<T>, b: seq<T>, f: T -> string)
    ensures Joined(a + b, f) == Joined(a, f) + Joined(b, f)
    decreases |b|
  {
    if b == [] {
      assert a + b == a;
    } else {
      var ab := a + b;
      assert ab[..|ab| - 1] == a + b[..|b| - 1];
      assert ab[|ab| - 1] == b[|b| - 1];
      JoinedAppend(a, b[..|b| - 1], f);
    }
  }

  /** Joining a list is joining the part before `xs[i]`, then `f(xs[i])`, then the part after it. */
  lemma JoinedAt<T>(xs: seq<T>, i: nat, f: T -> string)
    requires i < |xs|
    ensures Joined(xs, f) == Joined(xs[..i], f) + f(xs[i]) + Joined(xs[i + 1..], f)
  {
    var front, back := xs[..i + 1], xs[i + 1..];
    assert xs == front + back;
    JoinedAppend(front, back, f);
    assert front != [] && front[..|front| - 1] == xs[..i] && front[|front| - 1] == xs[i];
    assert Joined(front, f) == Joined(xs[..i], f) + f(xs[i]);
  }

  /** The list view is the row opening, the cards before `posts[i]`, the card of
      `posts[i]`, the cards after it, and the row closing: one card per post, in input order. */
  lemma PostListInOrder(posts: seq<Post>, i: nat)
    requires i < |posts|
    ensures PostListHtml(posts) ==
      RowOpen + (Cards(posts[..i]) + Card(posts[i]) + Cards(posts[i + 1..])) + RowClose
  {
    JoinedAt(posts, i, Card);
  }

  /** Joining one more element appends exactly its text. */
  lemma JoinedSnoc<T>(xs: seq<T>, i: nat, f: T -> string)
    requires i < |xs|
    ensures Joined(xs[..i + 1], f) == Joined(xs[..i], f) + f(xs[i])
  {
    assert xs[..i + 1][..i] == xs[..i];
  }

  /** One more post appends exactly its card. */
  lemma CardsSnoc(posts: seq<Post>, i: nat)
    requires i < |posts|
    ensures Cards(posts[..i + 1]) == Cards(posts[..i]) + Card(posts[i])
  {
    JoinedSnoc(posts, i, Card);
  }

  /** The list view shows every post's title, summary, date and `?id=` link. */
  lemma PostListShowsEveryPost(posts: seq<Post>, k: nat)
    requires k < |posts|
    ensures Contains(PostListHtml(posts), posts[k].title)
    ensures Contains(PostListHtml(posts), posts[k].summary)
    ensures Contains(PostListHtml(posts), posts[k].date)
    ensures Contains(PostListHtml(posts), "?id=" + Canon(posts[k].id))
  {
    PostListInOrder(posts, k);
    var before, card, after := Cards(posts[..k]), Card(posts[k]), Cards(posts[k + 1..]);
    CardShowsPost(posts[k]);
    ContainsInside(RowOpen, before, card, after, RowClose, posts[k].title);
    ContainsInside(RowOpen, before, card, after, RowClose, posts[k].summary);
    ContainsInside(RowOpen, before, card, after, RowClose, posts[k].date);
    ContainsInside(RowOpen, before, card, after, RowClose, "?id=" + Canon(posts[k].id));
  }

  /** An empty collection renders an empty grid. */
  lemma EmptyPostList()
    ensures PostListHtml([]) == "<div class=\"row\"></div>"
  {
  }

  /** The one-post list of tests/render.test.js. */
  lemma RenderExample(p: Post)
    requires p == Post(Str("post-1"), "Test Title", "A short summary", "2025-12-13", "")
    ensures var html := PostListHtml([p]);
      Contains(html, "Test Title") && Contains(html, "A short summary") && Contains(html, "?id=post-1")
  {
    PostListShowsEveryPost([p], 0);
    assert "?id=" + Canon(p.id) == "?id=post-1";
  }

  // ---- the single-post view (app/render.js:26-43) ----

  const BackLink := "<a href=\"index.html\" class=\"btn waves-effect waves-light blue\">\n                <i class=\"material-icons left\">arrow_back</i> Back\n            </a>"
  const SectionOpen := "<div class=\"section\">\n                "
  const SectionClose := "\n            </div>\n            "

  /** The message `loadPost` shows when the content cannot be fetched or converted. */
  const LoadErrorMessage := "Error loading post content."

  /** The path `loadPost` fetches for a content reference. */
  function ContentPath(filename: string): (path: string)
    ensures |path| == 6 + |filename| && path[..6] == "posts/" && path[6..] == filename
  {
    "posts/" + filename
  }

  /** The post view: the back link to index.html, then a section holding the converted body. */
  function PostHtml(body: string): string
  {
    "\n            " + BackLink + ("\n            " + SectionOpen) + body + SectionClose
  }

  /** The post view shows the back link and the converted body verbatim, and
      different bodies give different views. */
  lemma PostHtmlShowsBody(body: string, other: string)
    ensures Contains(PostHtml(body), BackLink)
    ensures Contains(PostHtml(body), body)
    ensures PostHtml(body) == PostHtml(other) ==> body == other
  {
    TemplateHoldsHoles("\n            ", BackLink, "\n            " + SectionOpen, body, SectionClose, "", "", "", "");
    assert PostHtml(body) == "\n            " + BackLink + ("\n            " + SectionOpen) + body + SectionClose + "" + "" + "" + "";
    if PostHtml(body) == PostHtml(other) {
      FrameInjective("\n            " + BackLink + ("\n            " + SectionOpen), body, other, SectionClose);
    }
  }

  /** What `loadPost` writes: the post view when the fetch and the conversion both
      succeed, the error view otherwise. */
  function LoadedHtml(filename: string, fetch: string -> Result<string, string>,
                      convert: string -> Result<string, string>): (html: string)
    ensures html == ErrorHtml(LoadErrorMessage) || exists body :: html == PostHtml(body)
  {
    match fetch(ContentPath(filename))
    case Failure(_) => ErrorHtml(LoadErrorMessage)
    case Success(markdown) =>
      match convert(markdown)
      case Failure(_) => ErrorHtml(LoadErrorMessage)
      case Success(body) => PostHtml(body)
  }

  /** `loadPost` ends in the error view exactly when the fetch or the conversion
      fails, and otherwise in the post view of exactly the converted body. */
  lemma LoadedHtmlOutcomes(filename: string, fetch: string -> Result<string, string>,
                           convert: string -> Result<string, string>)
    ensures var f := fetch(ContentPath(filename));
      var failed := f.Failure? || convert(f.value).Failure?;
      LoadedHtml(filename, fetch, convert) == ErrorHtml(LoadErrorMessage) <==> failed
    ensures var f := fetch(ContentPath(filename));
      forall body {:trigger PostHtml(body)} ::
        LoadedHtml(filename, fetch, convert) == PostHtml(body) <==>
          f.Success? && convert(f.value) == Success(body)
  {
    var f := fetch(ContentPath(filename));
    forall body {:trigger PostHtml(body)}
      ensures LoadedHtml(filename, fetch, convert) == PostHtml(body) <==>
                f.Success? && convert(f.value) == Success(body)
    {
      PostVersusError(body, LoadErrorMessage);
      if f.Success? && convert(f.value).Success? {
        PostHtmlShowsBody(convert(f.value).value, body);
      }
    }
    if f.Success? && convert(f.value).Success? {
      PostVersusError(convert(f.value).value, LoadErrorMessage);
    }
  }

  // ---- the fixed views (app/render.js:45-53) ----

  const NotFoundMessage := "Post not found"
  const NotFoundHtml := "<h3>Post not found</h3>"

  /** The error view of `showError(message)`. */
  function ErrorHtml(message: string): (html: string)
    ensures |html| == |message| + 9 && html[4..4 + |message|] == message
  {
    HoleAt("<h3>", message, "</h3>");
    "<h3>" + message + "</h3>"
  }

  /** The error view shows its message verbatim, and different messages give different views. */
  lemma ErrorHtmlShowsMessage(message: string, other: string)
    ensures Contains(ErrorHtml(message), message)
    ensures ErrorHtml(message) == ErrorHtml(other) ==> message == other
  {
    ContainsEnd("<h3>", message);
    ContainsAppend("<h3>" + message, message, "</h3>");
    if ErrorHtml(message) == ErrorHtml(other) {
      FrameInjective("<h3>", message, other, "</h3>");
    }
  }

  /** The not-found view shows its phrase, and is the error view of that phrase and no other. */
  lemma NotFoundShowsPhrase(message: string)
    ensures Contains(NotFoundHtml, NotFoundMessage)
    ensures ErrorHtml(message) == NotFoundHtml <==> message == NotFoundMessage
  {
    assert NotFoundHtml == "<h3>" + NotFoundMessage + "</h3>";
    ErrorHtmlShowsMessage(NotFoundMessage, message);
    ErrorHtmlShowsMessage(message, NotFoundMessage);
  }

  /** The post view opens with a line break. */
  lemma PostViewStart(body: string)
    ensures |PostHtml(body)| > 0 && PostHtml(body)[0] == '\n'
  {
    var indent := "\n            ";
    var head := indent + BackLink + (indent + SectionOpen);
    HeadOf(head + body, SectionClose);
    HeadOf(head, body);
    HeadOf(indent + BackLink, indent + SectionOpen);
    HeadOf(indent, BackLink);
  }

  /** A concatenation starts with the first character of its first part. */
  lemma HeadOf(x: string, y: string)
    requires |x| > 0
    ensures |x + y| > 0 && (x + y)[0] == x[0]
  {
  }

  /** Whatever follows the row opening, the text starts with `<d`. */
  lemma RowStart(c: string)
    ensures |RowOpen + c| > 1 && (RowOpen + c)[0] == '<' && (RowOpen + c)[1] == 'd'
  {
  }

  /** The list view opens with `<d`, the start of its row container. */
  lemma ListViewStart(posts: seq<Post>)
    ensures |PostListHtml(posts)| > 1 && PostListHtml(posts)[0] == '<' && PostListHtml(posts)[1] == 'd'
  {
    var cards := Cards(posts);
    RowStart(cards + RowClose);
    ConcatAssoc(RowOpen, cards, RowClose);
  }

  /** A post view never looks like an error view or the not-found view. */
  lemma PostVersusError(body: string, message: string)
    ensures PostHtml(body) != ErrorHtml(message)
    ensures PostHtml(body) != NotFoundHtml
  {
    PostViewStart(body);
    assert ErrorHtml(message)[0] == '<';
    assert NotFoundHtml[0] == '<';
  }

  /** The list view is told apart by its text from the post view and from the error
      and not-found views. */
  lemma ListVersusViews(posts: seq<Post>, body: string, message: string)
    ensures PostListHtml(posts) != PostHtml(body)
    ensures PostListHtml(posts) != ErrorHtml(message)
    ensures PostListHtml(posts) != NotFoundHtml
  {
    ListViewStart(posts);
    PostViewStart(body);
    assert ErrorHtml(message)[1] == 'h';
    assert NotFoundHtml[1] == 'h';
  }

  // ---- the output region ----

  /** The display region that every view overwrites (`contentArea`). */
  class ContentArea {
    var innerHTML: string
    /** How many times `innerHTML` has been assigned. */
    ghost var writes: nat

    constructor ()
      ensures innerHTML == "" && writes == 0
    {
      innerHTML := "";
      writes := 0;
    }

    /** One assignment `contentArea.innerHTML = html`: the old contents are discarded. */
    method Write(html: string)
      modifies this
      ensures innerHTML == html && writes == old(writes) + 1
    {
      innerHTML := html;
      writes := writes + 1;
    }

    /** `renderPostList(posts, contentArea)`. */
    method RenderPostList(posts: seq<Post>)
      modifies this
      ensures innerHTML == PostListHtml(posts) && writes == old(writes) + 1
    {
      var html := RowOpen;
      var i := 0;
      while i < |posts|
        invariant 0 <= i <= |posts|
        invariant html == RowOpen + Cards(posts[..i])
        modifies {}
      {
        CardsSnoc(posts, i);
        ConcatAssoc(RowOpen, Cards(posts[..i]), Card(posts[i]));
        html := html + Card(posts[i]);
        i := i + 1;
      }
      assert posts[..|posts|] == posts;
      html := html + RowClose;
      Write(html);
    }

    /** `loadPost(filename, contentArea)`, with the fetch of the content resource
        and the markdown converter supplied as total functions that may fail. */
    method LoadPost(filename: string, fetch: string -> Result<string, string>,
                    convert: string -> Result<string, string>)
      modifies this
      ensures writes == old(writes) + 1
      ensures fetch(ContentPath(filename)).Failure? ==> innerHTML == ErrorHtml(LoadErrorMessage)
      ensures fetch(ContentPath(filename)).Success? ==>
        var markdown := fetch(ContentPath(filename)).value;
        innerHTML == match convert(markdown)
                     case Failure(_) => ErrorHtml(LoadErrorMessage)
                     case Success(body) => PostHtml(body)
      ensures innerHTML == LoadedHtml(filename, fetch, convert)
    {
      var response := fetch(ContentPath(filename));
      if response.Failure? {
        ShowError(LoadErrorMessage);
      } else {
        var converted := convert(response.value);
        if converted.Failure? {
          ShowError(LoadErrorMessage);
        } else {
          Write(PostHtml(converted.value));
        }
      }
    }

    /** `showNotFound(contentArea)`. */
    method ShowNotFound()
      modifies this
      ensures innerHTML == NotFoundHtml && writes == old(writes) + 1
    {
      Write(NotFoundHtml);
    }

    /** `showError(message, contentArea)`. */
    method ShowError(message: string)
      modifies this
      ensures innerHTML == ErrorHtml(message) && writes == old(writes) + 1
    {
      Write(ErrorHtml(message));
    }
  }
}
