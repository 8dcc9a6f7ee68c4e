/** A loaded module file (`loader.ParsedFile`), reduced to what the hook
    runner and the destroy command read and write. */
module Loader {
  import opened Config

  /** The only field the runner writes is `env`; the input-variables file
      of a module lives on disk, outside this class. */
  class File {
    /** The module's name, unique within a run. */
    const name: string
    /** The hook blocks, in declaration order. */
    const hooks: seq<Hook>
    /** The environment passed to the engine; hooks with `set_env` write it. */
    var env: map<string, string>
    /** Whether the module's working directory carries an initialization marker. */
    const initialized: bool

    constructor (name: string, hooks: seq<Hook>, env: map<string, string>, initialized: bool)
      ensures this.name == name && this.hooks == hooks && this.env == env
      ensures this.initialized == initialized
    {
      this.name := name;
      this.hooks := hooks;
      this.env := env;
      this.initialized := initialized;
    }
  }
}
