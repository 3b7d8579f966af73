/** The view-model of one repository card: the linked title, the optional
    "Visit Site" link, the description and the "Updated ..." label, each
    taken from the repository's override when that field is truthy. */
module Cards {
  import opened Wrappers
  import opened Repository
  import TitleCase
  import TimeAgo

  const NoDescription := "No description provided."

  /** What a card shows. `repoUrl` is the title's link, opened in a new
      browsing context without a reference to the opener; `siteUrl` is the
      "Visit Site" link when present. */
  datatype Card = Card(title: string, repoUrl: string, siteUrl: Option<string>, description: string, updatedLabel: string)

  /** `config[repo.name] || {}`. */
  function OverrideFor(config: Config, name: string): Override {
    if name in config then config[name] else NoOverride
  }

  /** The card of `renderCard`, with the clock reading `now`. */
  function CardFor(repo: Repo, config: Config, now: int): Card {
    var cfg := OverrideFor(config, repo.name);
    Card(OrElse(cfg.displayName, TitleCase.TitleCase(repo.name)),
         repo.htmlUrl,
         if Truthy(cfg.siteUrl) then cfg.siteUrl else None,
         OrElse(cfg.description, OrElse(repo.description, NoDescription)),
         "Updated " + TimeAgo.Ago(TimeAgo.ElapsedSeconds(now, repo.updated)))
  }

  /** `renderCard`: resolves the overrides and runs `timeAgo` for the label. */
  method RenderCard(repo: Repo, config: Config, now: int) returns (card: Card)
    ensures card == CardFor(repo, config, now)
  {
    var cfg := OverrideFor(config, repo.name);
    var displayName := OrElse(cfg.displayName, TitleCase.TitleCase(repo.name));
    var description := OrElse(cfg.description, OrElse(repo.description, NoDescription));
    var siteUrl := if Truthy(cfg.siteUrl) then cfg.siteUrl else None;
    var ago := TimeAgo.TimeAgoLabel(now, repo.updated);
    card := Card(displayName, repo.htmlUrl, siteUrl, description, "Updated " + ago);
  }

  /** Override precedence, an empty string counting as absent: the
      override's display name wins over the derived title; the override's
      description wins over the repository's, which wins over the fixed
      fallback; the "Visit Site" link is there exactly when the override has
      a site URL. The title links to the repository's page. */
  lemma OverridePrecedence(repo: Repo, config: Config, now: int)
    ensures var card, cfg := CardFor(repo, config, now), OverrideFor(config, repo.name);
      && (Truthy(cfg.displayName) ==> card.title == cfg.displayName.value)
      && (!Truthy(cfg.displayName) ==> card.title == TitleCase.TitleCase(repo.name))
      && (Truthy(cfg.description) ==> card.description == cfg.description.value)
      && (!Truthy(cfg.description) && Truthy(repo.description) ==> card.description == repo.description.value)
      && (!Truthy(cfg.description) && !Truthy(repo.description) ==> card.description == NoDescription)
      && (card.siteUrl.Some? <==> Truthy(cfg.siteUrl))
      && (card.siteUrl.Some? ==> card.siteUrl.value == cfg.siteUrl.value)
      && card.repoUrl == repo.htmlUrl
  {
  }

  /** A card never shows an empty description, and without a display name
      override its title has the repository name's length and no `-`/`_`. */
  lemma CardText(repo: Repo, config: Config, now: int)
    ensures CardFor(repo, config, now).description != ""
    ensures !Truthy(OverrideFor(config, repo.name).displayName) ==>
      var title := CardFor(repo, config, now).title;
      |title| == |repo.name| && forall i :: 0 <= i < |title| ==> title[i] != '-' && title[i] != '_'
  {
    TitleCase.TitleCaseShape(repo.name);
  }

  /** The label reads "Updated just now" exactly when less than a minute
      has passed since the repository's timestamp (or it lies ahead). */
  lemma UpdatedJustNow(repo: Repo, config: Config, now: int)
    ensures CardFor(repo, config, now).updatedLabel == "Updated just now" <==>
      TimeAgo.ElapsedSeconds(now, repo.updated) < 60
  {
    var ago := TimeAgo.Ago(TimeAgo.ElapsedSeconds(now, repo.updated));
    TimeAgo.JustNowIffUnderAMinute(TimeAgo.ElapsedSeconds(now, repo.updated));
    if "Updated " + ago == "Updated just now" {
      assert ago == ("Updated " + ago)[8..];
    }
  }
}
