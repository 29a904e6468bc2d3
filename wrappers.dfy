/** Option and Result values, and the failures the repository builder raises.
    Each `Error` constructor stands for one exception of the builder; the
    comment names the line of create_repository.py that raises it. */
module Wrappers {

  datatype Option<T> = None | Some(value: T)

  datatype Result<T> = Ok(value: T) | Err(error: Error)

  datatype Error =
    | MetadataUnopenable(path: string)             // IOError turned into RuntimeError, line 84
    | MetadataMalformed(path: string)              // ElementTree.ParseError, propagated
    | InvalidAddonId(id: Option<string>)           // line 94
    | InvalidAddonVersion(version: Option<string>) // line 97
    | ArchiveRootCount(count: nat)                 // line 224
    | ArchiveMemberMissing(name: string)           // KeyError from ZipFile.open, line 227
    | BadZipFile(path: string)                     // zipfile.BadZipFile, line 218
    | PathNotFound(path: string)                   // line 269
    | GitPythonMissing                             // line 289-290
    | GitCommandFailed(what: string)               // clone, checkout or archive, lines 170-172, 133
    | WorkerReportedNothing                        // line 318
    | OSError(path: string)                        // mkdir, open or a walked file that is gone
    | NoPathSpecified                              // ValueError of posixpath.relpath('')
    | UndefinedAttribute(name: string)             // AttributeError, line 251
    | UndefinedName(name: string)                  // NameError: `git` used without import_git
}
