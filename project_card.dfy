/** The project card of the front end (MODXX/src/components/ProjectCard.jsx):
    its image URL and the badge and button it shows for the viewer's
    membership state. */
module ProjectCard {
  import opened Common
  import AxiosInstance

  const Placeholder: string := "https://placehold.co/600x400/1f2937/d1d5db?text=Project+Image"

  /** getImageUrl: the placeholder for a missing path, absolute "http" URLs
      unchanged, anything else appended to BASE_URL after dropping at most one
      leading '/'. `env` is the configured VITE_API_URL. */
  function CardImageUrl(env: Option<string>, imagePath: Option<string>): (r: string)
    ensures imagePath.None? || imagePath == Some("") ==> r == Placeholder
    ensures imagePath.Some? && StartsWith(imagePath.value, "http") ==> r == imagePath.value
  {
    if imagePath.None? || imagePath.value == "" then Placeholder
    else if StartsWith(imagePath.value, "http") then imagePath.value
    else
      AxiosInstance.BaseUrl(env) + DropSlash(imagePath.value)
  }

  /** A relative path is appended to the base URL, which ends in a single
      '/', and the path minus its leading '/' survives as the tail of the
      result. */
  lemma RelativeJoin(env: Option<string>, path: string)
    requires path != "" && !StartsWith(path, "http")
    ensures var r := CardImageUrl(env, Some(path));
      var base := AxiosInstance.BaseUrl(env);
      r == base + DropSlash(path) && EndsWith(r, DropSlash(path))
      && base[|base| - 1] == '/' && base[|base| - 2] != '/'
  {
    AxiosInstance.SingleTrailingSlash(env);
    EndsWithJoin(AxiosInstance.BaseUrl(env), DropSlash(path));
  }

  /** The path without one leading '/'. */
  function DropSlash(path: string): (r: string)
    ensures !StartsWith(path, "//") ==> r == "" || r[0] != '/'
    ensures path != [] && path[0] == '/' ==> [path[0]] + r == path
    ensures path == [] || path[0] != '/' ==> r == path
  {
    if path != [] && path[0] == '/' then
      assert |path| >= 2 ==> path[..2] == "/" + [path[1]];
      path[1..]
    else path
  }

  lemma EndsWithJoin(a: string, b: string)
    ensures EndsWith(a + b, b)
  {
    assert (a + b)[|a + b| - |b|..] == b;
  }

  /** The "Pending" badge, shown only for a pending project the viewer has not
      joined. */
  function ShowPendingBadge(isMember: bool, isPending: bool): bool {
    isPending && !isMember
  }

  /** The action area: the "Authorized" badge for members, otherwise an Apply
      button, disabled and labelled "Syncing..." while the application is
      pending. */
  datatype CardAction = Authorized | ApplyButton(disabled: bool, caption: string)

  function Action(isMember: bool, isPending: bool): (a: CardAction)
    ensures a.Authorized? <==> isMember
    ensures a.ApplyButton? ==> (a.disabled <==> isPending)
    ensures a.ApplyButton? ==> a.caption == (if isPending then "Syncing..." else "Apply")
  {
    if isMember then Authorized
    else ApplyButton(isPending, if isPending then "Syncing..." else "Apply")
  }

  /** The card never shows the "Joined" and "Pending" badges together, and an
      enabled Apply button is shown exactly when the viewer is neither a
      member nor pending. */
  lemma BadgesExclusive(isMember: bool, isPending: bool)
    ensures !(isMember && ShowPendingBadge(isMember, isPending))
    ensures Action(isMember, isPending) == ApplyButton(false, "Apply") <==> !isMember && !isPending
  {
  }
}
