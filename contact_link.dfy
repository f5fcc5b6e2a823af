/**
 * The contact links rendered by `src/pages/Home.jsx` and, with the same rule,
 * `src/components/ProfileHeader.jsx`: each contact becomes an anchor whose `href` is the link
 * (given a `https://` scheme when it does not start with `http`), whose icon is the mail icon
 * for the `email` entry, and whose text is the link with `https://` and `mailto:` cut out once.
 */
module ContactLink {
  import opened JsString

  /** A contact entry; `name` is the entry's `label` field. */
  datatype Contact = Contact(name: string, link: string)

  datatype Icon = MailIcon | LinkIcon

  /** What one contact renders. */
  datatype Anchor = Anchor(href: string, icon: Icon, text: string)

  const HttpPrefix: string := "http"
  const SecureScheme: string := "https://"
  const MailScheme: string := "mailto:"
  const EmailLabel: string := "email"

  /** The anchor target: the link itself when it starts with `http`, else the link behind `https://`. */
  function Href(link: string): (r: string)
    ensures HttpPrefix <= r
    ensures HttpPrefix <= link ==> r == link
    ensures !(HttpPrefix <= link) ==> r == SecureScheme + link
  {
    if HttpPrefix <= link then link else SecureScheme + link
  }

  /** Normalising a target that is already normalised changes nothing. */
  lemma HrefIdempotent(link: string)
    ensures Href(Href(link)) == Href(link)
  {
  }

  /** The mail icon is chosen exactly for the `email` label. */
  function IconFor(name: string): (r: Icon)
    ensures r == MailIcon <==> name == EmailLabel
  {
    if name == EmailLabel then MailIcon else LinkIcon
  }

  /** The visible text: the first `https://` removed, then the first `mailto:` of what is left. */
  function LinkText(link: string): (r: string)
    ensures |r| <= |link|
    ensures forall ch :: ch in r ==> ch in link
  {
    ReplaceFirst(ReplaceFirst(link, SecureScheme, ""), MailScheme, "")
  }

  function ToAnchor(c: Contact): (r: Anchor)
    ensures r.href == Href(c.link) && r.icon == IconFor(c.name) && r.text == LinkText(c.link)
  {
    Anchor(Href(c.link), IconFor(c.name), LinkText(c.link))
  }

  /** The anchors of `contact.map(...)`, one per contact, in order. */
  function Anchors(contacts: seq<Contact>): (r: seq<Anchor>)
    ensures |r| == |contacts|
    ensures forall k :: 0 <= k < |r| ==> r[k] == ToAnchor(contacts[k])
  {
    seq(|contacts|, k requires 0 <= k < |contacts| => ToAnchor(contacts[k]))
  }

  /** A pattern does not occur at a position holding a character other than its first. */
  lemma NoOccurrenceAt(s: string, p: string, i: nat)
    requires |p| > 0 && i < |s| && s[i] != p[0]
    ensures !OccursAt(s, p, i)
  {
    if i + |p| <= |s| {
      assert s[i..i + |p|][0] == s[i];
    }
  }

  /** Removing the first occurrence keeps a prefix in which no occurrence starts. */
  lemma ReplaceKeepsPrefix(s: string, p: string, pre: string)
    requires pre <= s && forall i: nat :: i < |pre| ==> !OccursAt(s, p, i)
    ensures pre <= ReplaceFirst(s, p, "")
  {
    var idx := IndexOf(s, p);
    if idx.Some? {
      var i := idx.value;
      assert i >= |pre|;
      assert ReplaceFirst(s, p, "") == s[..i] + s[i + |p|..];
    }
  }

  /**
   * A link with no colon, like a bare e-mail address or domain, is shown as it is. Its target
   * is the link behind `https://` unless it already starts with `http`.
   */
  lemma SchemelessLinkShownAsIs(link: string)
    requires ':' !in link
    ensures LinkText(link) == link
  {
    assert ':' in SecureScheme;
    ReplaceAbsent(link, SecureScheme, "");
    assert ':' in MailScheme;
    ReplaceAbsent(link, MailScheme, "");
  }

  /** No `https://` starts inside the `http://` a link begins with. */
  lemma NoSecureSchemeInHttp(link: string)
    requires "http://" <= link
    ensures forall i: nat :: i < 7 ==> !OccursAt(link, SecureScheme, i)
  {
    forall i: nat | i < 7 ensures !OccursAt(link, SecureScheme, i) {
      if i == 0 {
        assert link[4] == ':';
      } else {
        NoOccurrenceAt(link, SecureScheme, i);
      }
    }
  }

  /** No `mailto:` starts inside the `http://` a text begins with. */
  lemma NoMailSchemeInHttp(text: string)
    requires "http://" <= text
    ensures forall i: nat :: i < 7 ==> !OccursAt(text, MailScheme, i)
  {
    forall i: nat | i < 7 ensures !OccursAt(text, MailScheme, i) {
      assert text[i] == "http://"[i];
      NoOccurrenceAt(text, MailScheme, i);
    }
  }

  /** A plain `http://` link is not upgraded: both the target and the text keep `http://`. */
  lemma HttpLinkKept(link: string)
    requires "http://" <= link
    ensures Href(link) == link
    ensures "http://" <= LinkText(link)
  {
    NoSecureSchemeInHttp(link);
    ReplaceKeepsPrefix(link, SecureScheme, "http://");
    var once := ReplaceFirst(link, SecureScheme, "");
    NoMailSchemeInHttp(once);
    ReplaceKeepsPrefix(once, MailScheme, "http://");
  }

  /**
   * A `https://` link keeps its target and is shown without that scheme, with the first
   * `mailto:` of the rest cut out; when the rest holds no `mailto:`, it is shown as the rest.
   */
  lemma HttpsLinkText(link: string)
    requires SecureScheme <= link
    ensures Href(link) == link
    ensures LinkText(link) == ReplaceFirst(link[8..], MailScheme, "")
    ensures (forall j: nat :: !OccursAt(link[8..], MailScheme, j)) ==> LinkText(link) == link[8..]
  {
    assert OccursAt(link, SecureScheme, 0);
    assert ReplaceFirst(link, SecureScheme, "") == link[8..];
  }

  /**
   * A `mailto:` link gets a `https://` scheme in front of its target; when it holds no
   * `https://`, it is shown without `mailto:`.
   */
  lemma MailtoLink(link: string)
    requires MailScheme <= link
    ensures Href(link) == SecureScheme + link
    ensures (forall j: nat :: !OccursAt(link, SecureScheme, j)) ==> LinkText(link) == link[7..]
  {
    assert link[0] == 'm';
    assert OccursAt(link, MailScheme, 0);
  }

  /** The two contacts of the portfolio. */
  const Email: Contact := Contact("email", "Vichet.sopheaktra.work@gmail.com")
  const GithubPath: string := "github.com/faintedsnow"
  const Github: Contact := Contact("github", SecureScheme + GithubPath)

  /**
   * The bare e-mail address gets the mail icon and is shown as written; its target is the
   * address behind `https://`, not a `mailto:` target.
   */
  lemma EmailContactAnchor()
    ensures ToAnchor(Email) == Anchor(SecureScheme + Email.link, MailIcon, Email.link)
  {
    assert Email.link[0] == 'V';
    assert ':' !in Email.link;
    SchemelessLinkShownAsIs(Email.link);
  }

  /** The GitHub link keeps its target, gets the link icon, and is shown without `https://`. */
  lemma GithubContactAnchor()
    ensures ToAnchor(Github) == Anchor(Github.link, LinkIcon, GithubPath)
  {
    assert Github.link[..8] == SecureScheme && Github.link[8..] == GithubPath;
    assert ':' !in GithubPath && ':' in MailScheme;
    ReplaceAbsent(GithubPath, MailScheme, "");
    HttpsLinkText(Github.link);
  }
}
