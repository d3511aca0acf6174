/** The site metadata of app/layout.tsx's generateMetadata: the first row
    of the `seo` table (or none) and the branding record (or none) become
    the page title, description, Open Graph fields, verification tags,
    icons and, for a known card type, the Twitter card. */
module SiteMetadata {
  import opened Common

  /** A row of the `seo` table; a NULL column is None. */
  datatype SeoData = SeoData(
    metaTitle: Option<string>,
    metaDescription: Option<string>,
    metaKeywords: Option<string>,
    ogTitle: Option<string>,
    ogDescription: Option<string>,
    ogImage: Option<string>,
    twitterCard: Option<string>,
    googleAnalyticsId: Option<string>,
    bingWebmasterId: Option<string>,
    robotsTxt: Option<string>)

  datatype Branding = Branding(favicon: Option<string>)

  /** `icons`: the favicon three times, or the empty object. */
  datatype Icons = NoIcons | IconSet(icon: string, shortcut: string, apple: string)

  /** The Twitter cards the switch knows; the app card carries fixed
      placeholder names and ids. */
  datatype TwitterCard = Summary | SummaryLargeImage | AppCard(name: string, iphone: string, ipad: string, googlePlay: string)

  datatype Metadata = Metadata(
    title: string,
    description: string,
    keywords: Option<string>,
    ogTitle: string,
    ogDescription: string,
    ogImages: Option<seq<string>>,
    googleSiteVerification: string,
    msValidate: string,
    robots: string,
    icons: Icons,
    twitter: Option<TwitterCard>)

  const DefaultTitle := "Default Title"
  const DefaultDescription := "Default Description"
  const DefaultOgTitle := "Default OG Title"
  const DefaultOgDescription := "Default OG Description"

  /** What `seoData?.field` reads: with no seo row, every field is
      undefined, as in a row of NULLs. */
  function Row(seo: Option<SeoData>): SeoData {
    if seo.None? then SeoData(None, None, None, None, None, None, None, None, None, None) else seo.value
  }

  /** A string that is there and not empty. */
  predicate Present(v: Option<string>) {
    v.Some? && v.value != ""
  }

  /** The object literal, before the Twitter switch. */
  function BaseMetadata(seo: Option<SeoData>, branding: Option<Branding>): (m: Metadata)
    ensures m.twitter.None?
    ensures m.title == OrElse(Row(seo).metaTitle, DefaultTitle)
    ensures m.description == OrElse(Row(seo).metaDescription, DefaultDescription)
    ensures m.keywords == Row(seo).metaKeywords
    ensures m.googleSiteVerification == OrElse(Row(seo).googleAnalyticsId, "")
    ensures m.msValidate == OrElse(Row(seo).bingWebmasterId, "")
    ensures m.robots == OrElse(Row(seo).robotsTxt, "")
    ensures m.ogTitle == OrElse(Row(seo).ogTitle, OrElse(Row(seo).metaTitle, DefaultOgTitle))
    ensures m.ogDescription == OrElse(Row(seo).ogDescription, OrElse(Row(seo).metaDescription, DefaultOgDescription))
    ensures m.ogImages.Some? <==> Present(Row(seo).ogImage)
    ensures m.ogImages.Some? ==> m.ogImages.value == [Row(seo).ogImage.value]
    ensures m.icons.IconSet? <==> branding.Some? && Present(branding.value.favicon)
    ensures m.icons.IconSet? ==> m.icons.icon == m.icons.shortcut == m.icons.apple == branding.value.favicon.value
  {
    var ogImage := Row(seo).ogImage;
    Metadata(
      OrElse(Row(seo).metaTitle, DefaultTitle),
      OrElse(Row(seo).metaDescription, DefaultDescription),
      Row(seo).metaKeywords,
      OrElse(Row(seo).ogTitle, OrElse(Row(seo).metaTitle, DefaultOgTitle)),
      OrElse(Row(seo).ogDescription, OrElse(Row(seo).metaDescription, DefaultOgDescription)),
      if Present(ogImage) then Some([ogImage.value]) else None,
      OrElse(Row(seo).googleAnalyticsId, ""),
      OrElse(Row(seo).bingWebmasterId, ""),
      OrElse(Row(seo).robotsTxt, ""),
      if branding.Some? && Present(branding.value.favicon)
      then IconSet(branding.value.favicon.value, branding.value.favicon.value, branding.value.favicon.value)
      else NoIcons,
      None)
  }

  /** The card types the switch recognises. */
  predicate KnownCard(card: string) {
    card == "summary" || card == "summary_large_image" || card == "app"
  }

  /** generateMetadata: build the literal, then set `twitter` when the
      seo row names a known card type. */
  method GenerateMetadata(seo: Option<SeoData>, branding: Option<Branding>) returns (metadata: Metadata)
    ensures metadata.(twitter := None) == BaseMetadata(seo, branding)
    ensures var card := Row(seo).twitterCard;
      (metadata.twitter.Some? <==> Present(card) && KnownCard(card.value)) &&
      (metadata.twitter == Some(Summary) <==> card == Some("summary")) &&
      (metadata.twitter == Some(SummaryLargeImage) <==> card == Some("summary_large_image")) &&
      (metadata.twitter.Some? && metadata.twitter.value.AppCard? <==> card == Some("app"))
  {
    metadata := BaseMetadata(seo, branding);
    var card := Row(seo).twitterCard;
    if Present(card) {
      if card.value == "summary" {
        metadata := metadata.(twitter := Some(Summary));
      } else if card.value == "summary_large_image" {
        metadata := metadata.(twitter := Some(SummaryLargeImage));
      } else if card.value == "app" {
        metadata := metadata.(twitter := Some(AppCard("Your App Name", "iPhone App ID", "iPad App ID", "Google Play App ID")));
      }
    }
  }

  /** Without an seo row every field takes its default, the verification
      and robots entries are empty, and there are no keywords, Open Graph
      images or Twitter card. */
  lemma NoSeoDefaults(branding: Option<Branding>)
    ensures var m := BaseMetadata(None, branding);
      m.title == DefaultTitle && m.description == DefaultDescription &&
      m.ogTitle == DefaultOgTitle && m.ogDescription == DefaultOgDescription &&
      m.keywords.None? && m.ogImages.None? &&
      m.googleSiteVerification == "" && m.msValidate == "" && m.robots == ""
  {
  }

  /** An empty column counts as a missing one: clearing the title to ""
      gives the same metadata as a NULL title. */
  lemma EmptyTitleIsMissing(seo: SeoData, branding: Option<Branding>)
    ensures BaseMetadata(Some(seo.(metaTitle := Some(""))), branding) ==
            BaseMetadata(Some(seo.(metaTitle := None)), branding)
  {
    var a := BaseMetadata(Some(seo.(metaTitle := Some(""))), branding);
    var b := BaseMetadata(Some(seo.(metaTitle := None)), branding);
    assert a.title == b.title == DefaultTitle;
    assert a.ogTitle == b.ogTitle;
  }

  /** Without an Open Graph title, the Open Graph title is the page title
      whenever the seo row has one. */
  lemma OgTitleFollowsTitle(seo: SeoData, branding: Option<Branding>)
    requires !Present(seo.ogTitle) && Present(seo.metaTitle)
    ensures BaseMetadata(Some(seo), branding).ogTitle == BaseMetadata(Some(seo), branding).title == seo.metaTitle.value
  {
  }
}
