/** The entities the build-source resolver of pkg/start/gen2.go passes between
    its stages, and the host facilities it consults (docker, the file system
    and the process's working directory), which the model takes as inputs. */
module Sources {
  import opened Wrappers

  /** One file or directory to keep in sync: where it is on the developer's
      machine and where the Dockerfile puts it inside the container. */
  datatype BuildSource = BuildSource(local: string, remote: string)

  /** Every way `buildSources` can end without a list. */
  datatype BuildError =
    | DockerfileUnavailable
    | OptionsPanic
    | UrlInvalid(source: string)
    | EnvUndecodable(image: string)
    | WorkdirUnavailable(image: string)
    | NoWorkingDirectory(path: string)
    | StatFailed(path: string)
    | RelFailed(base: string, target: string)

  /** The outcome of `docker inspect <image> --format {{json .Config.Env}}`:
      the command failed, its output is not a JSON list of strings, or the
      list. */
  datatype EnvInspect = ExecFailed | Undecodable | EnvList(entries: seq<string>)

  /** The host as the resolver sees it:
      - `inspectEnv` and `inspectWorkdir` run `docker inspect` on an image
        (the second gives the raw output, or None when the command fails);
      - `cwd` is the process's working directory (None when it cannot be
        determined);
      - `stat` says whether a path names a directory (None when it does not
        exist or cannot be read);
      - `rel` is `filepath.Rel(base, target)` (None when it fails). */
  datatype Host = Host(
    inspectEnv: string -> EnvInspect,
    inspectWorkdir: string -> Option<string>,
    cwd: Option<string>,
    stat: string -> Option<bool>,
    rel: (string, string) -> Option<string>)
}
