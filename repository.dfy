/** The records the loader works on: a repository as the hosting API lists it
    and a per-repository display override from the local configuration file. */
module Repository {
  import opened Wrappers

  /** One entry of the API's repository list. `updated` is the `updated_at`
      timestamp in milliseconds since the epoch; `description` is `None` for
      the API's `null`. */
  datatype Repo = Repo(name: string, htmlUrl: string, description: Option<string>, updated: int)

  /** The optional fields of one entry of `project-config.json`. */
  datatype Override = Override(displayName: Option<string>, description: Option<string>, siteUrl: Option<string>)

  /** The configuration: repository name to override. */
  type Config = map<string, Override>

  /** The `{}` that stands in for a repository without an entry. */
  const NoOverride := Override(None, None, None)

  /** JavaScript truthiness of an optional string: absent and `""` are falsy. */
  predicate Truthy(s: Option<string>) {
    s.Some? && s.value != ""
  }

  /** `a || b` on an optional string and a fallback string. */
  function OrElse(a: Option<string>, b: string): string {
    if Truthy(a) then a.value else b
  }
}
