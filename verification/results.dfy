/** The failures raised by the modelled functions, and the value types that carry them. */
module Results {

  datatype Option<T> = None | Some(value: T)

  /** One constructor per exception the core raises. */
  datatype Error =
    | UnknownLibraryType(value: string)      // ValueError from the LibraryType constructor
    | InvalidStrand(strand: string)          // ValueError: strand must be '+' or '-'
    | BgAndBgaBothSet                        // ValueError: bg and bga are mutually exclusive
    | NeitherBgNorBga                        // ValueError: either bg or bga must be True
    | FivePrimeAndThreePrime                 // ValueError: both five_prime and three_prime
    | UnsupportedFileType(fileType: string)  // ValueError from the file-type dispatcher
    | LibraryTypeNotMember(libtype: string)  // AssertionError on the library-type check
    | MissingPrefix(strand: string)          // KeyError on the per-strand prefix lookup
    | InputNotFound(path: string)            // FileNotFoundError for a missing input file

  datatype Result<T> = Success(value: T) | Failure(error: Error)
}
