/** Shared data of the portfolio site: the upstream records the GitHub API
    returns, and the tagged outcome of one `fetch` as the code observes it. */
module Types {

  /** A JSON field that may be missing or `null` (`x?: T`, `T | null`):
      `None` when there is nothing there. */
  datatype Option<+T> = None | Some(value: T) {

    /** `x || fallback` for a field that is either absent or an array,
        so that truthiness and presence coincide. */
    function GetOr(fallback: T): T {
      if Some? then value else fallback
    }
  }

  /** The outcome of one `fetch(...)` followed by `.json()` on its body:
      - `Ok(body)`: a 2xx response whose body parsed to `body`;
      - `NotOk`: a response whose `ok` flag is false (non-2xx status);
      - `Thrown(message)`: the promise rejected (transport failure, or a
        body that did not parse); `message` is the `Error`'s message, or
        `None` when something other than an `Error` was thrown. */
  datatype Fetched<+T> = Ok(body: T) | NotOk | Thrown(message: Option<string>)

  /** A GitHub user profile (`GET /users/{login}`). */
  datatype User = User(
    login: string,
    avatarUrl: string,
    name: string,
    bio: string,
    publicRepos: int,
    followers: int,
    following: int,
    htmlUrl: string)

  /** A repository summary as returned by the repository endpoints. */
  datatype Repo = Repo(
    fullName: string,
    name: string,
    description: string,
    language: string,
    stars: int,
    forks: int,
    htmlUrl: string,
    topics: seq<string>)

  /** A public activity event; only its `type` is ever inspected. */
  datatype Event = Event(kind: string, repoName: string)

  function Min(a: int, b: int): int {
    if a <= b then a else b
  }
}
