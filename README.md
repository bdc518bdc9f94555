# ares-turbo fast class path, modelled in Dafny

ares-turbo speeds up class loading in large Spring Boot applications. Its
`fast` package replaces the JDK's URL class path with an indexed one:

- every loader on the search path computes a fixed set of *index keys*:
  - a jar loader (`FastJarLoader`) takes them from the packages of its archive's entries;
  - a directory loader (`FastFileLoader`) takes them from the names in its directory tree;
- `FastLoaderIndex` merges the keys of all loaders, in search-path order, into a map from key to the ordered
  list of loaders holding it, plus a fallback list of directory loaders;
- `FastURLClassPath` expands the URL list with a depth-first worklist. The worklist follows each jar's
  manifest `Class-Path` and skips duplicates and loaders that fail to open. The class path then answers
  first-hit and all-hit lookups through the index, accepts new URLs and closes its loaders;
- `FastResource.getBytes` reads a resource's stream into a growing buffer;
- `FastURLClassLoader` puts the class path behind a switch and maps class names to resource paths. It also
  decides sealing and combines the errors of `close`.

Beside these, the model covers:

- `BytesLruCache`, a byte-weighted, access-ordered LRU cache;
- the helpers `CollectionUtil`, `MapUtil` and `IntegerUtil`;
- the build tool's `AresTurboLayoutFactory`.

The model is one Dafny module per source file:

| module | file |
|---|---|
| `FastJarLoaders` | `fast_jar_loader.dfy` |
| `FastFileLoaders` | `fast_file_loader.dfy` |
| `FastLoaders` | `fast_loader.dfy` |
| `FastLoaderIndexes` | `fast_loader_index.dfy` |
| `FastURLClassPaths` | `fast_url_class_path.dfy` |
| `FastResources` | `fast_resource.dfy` |
| `FastURLClassLoaders` | `fast_url_class_loader.dfy` |
| `BytesLruCaches` | `bytes_lru_cache.dfy` |
| `CollectionUtil` | `collection_util.dfy` |
| `MapUtil` | `map_util.dfy` |
| `IntegerUtil` | `integer_util.dfy` |
| `LayoutFactory` | `layout_factory.dfy` |

Three support modules sit beside them:

- `Wrappers` and `JavaErrors` hold `Option`, `Result` and Java's exception kinds;
- `Text` holds the `String` methods the code calls;
- `Platform` holds the environment. `Env` bundles the JDK's URL resolution, canonicalisation and decoding
  (as given functions), the jar archives, the directory trees and the system-property switches. A stream is
  a finite list of read events.

Objects whose fields the source updates in place are classes:

- the loaders;
- the class path and its two enumerations;
- the input stream and the resource;
- the class loader;
- the cache.

Their loops are methods with invariants, each proved against a specification function. The properties that
relate several calls are lemmas about those functions.

`FastLoader` is an abstract class with two subclasses. It is modelled as the datatype
`FastLoaders.Loader = JarLoader(FastJarLoader) | DirLoader(FastFileLoader)`.

The worklist of `createLoaders` is specified by `FastURLClassPaths.Run`, a state machine over a ghost
`Traversal`. A `Traversal` describes each URL: its map key, how `getLoader` treats it, its Class-Path URLs and
its exception. `TraversalOf(env)` is the traversal of the platform. It is bounded because only a URL that maps
to a jar key can declare Class-Path URLs, so the worklist ends even when jars name each other.

A jar loader whose archive is closed throws IllegalStateException("zip file closed") on every lookup. Each
lookup therefore answers a `Result`, and the class path's lookups stop at the first answer that is a hit or
an exception. The enumerations yield hits and exceptions in candidate order; an exception is thrown once, and
the cursor has already moved past its loader.

## Model

| member | source | states |
|---|---|---|
| FastJarLoaders.PackageOf | ares-turbo-loader/src/main/java/cn/ares/turbo/loader/fast/FastJarLoader.java:76-84 | the text before the last '/' of a name, or the whole name without one; what follows it in the name holds no '/' |
| FastJarLoaders.JarKeysAreEntryKeys | ares-turbo-loader/src/main/java/cn/ares/turbo/loader/fast/FastJarLoader.java:61-95 | a key is in the archive's key set exactly when some entry contributes it |
| FastJarLoaders.EntryKeyCases | ares-turbo-loader/src/main/java/cn/ares/turbo/loader/fast/FastJarLoader.java:70-91 | "META-INF/", the index and the manifest never contribute; with META_INF_FILENAMES off an entry contributes its package; with it on, a non-directory entry under META-INF/ contributes its full name |
| FastJarLoaders.GetIndexKeys0 | ares-turbo-loader/src/main/java/cn/ares/turbo/loader/fast/FastJarLoader.java:61-95 | the loop over the entries builds exactly the archive's key set |
| FastJarLoaders.NewUrl | ares-turbo-loader/src/main/java/cn/ares/turbo/loader/fast/FastJarLoader.java:139-145 | new URL(base, spec) succeeds exactly when the resolution exists, and fails with MalformedURLException otherwise |
| FastJarLoaders.TryResolveFile | ares-turbo-loader/src/main/java/cn/ares/turbo/loader/fast/FastJarLoader.java:157-167 | the token is rejected (null) exactly when it has a scheme before its first ':' that is not "file" ignoring case; otherwise it is the plain resolution |
| FastJarLoaders.TryResolveNonFile | ares-turbo-loader/src/main/java/cn/ares/turbo/loader/fast/FastJarLoader.java:176-203 | a token is kept exactly when it is relative, resolves, matches the base path up to its last '/', and has no ".." from there on |
| FastJarLoaders.TryResolve | ares-turbo-loader/src/main/java/cn/ares/turbo/loader/fast/FastJarLoader.java:139-145 | a "file" base (ignoring case) uses tryResolveFile, any other base tryResolveNonFile |
| FastJarLoaders.NonFileRejectsAbsolute | ares-turbo-loader/src/main/java/cn/ares/turbo/loader/fast/FastJarLoader.java:176-203 | under a non-file base an absolute or unparsable token is always dropped |
| FastJarLoaders.Survivors | ares-turbo-loader/src/main/java/cn/ares/turbo/loader/fast/FastJarLoader.java:116-137 | the URLs kept from the tokens are never more than the tokens |
| FastJarLoaders.DisabledCheckKeepsEveryToken | ares-turbo-loader/src/main/java/cn/ares/turbo/loader/fast/FastJarLoader.java:116-130 | with DISABLE_CP_URL_CHECK set and every token resolvable, every token's resolution is kept, in order |
| FastJarLoaders.MalformedTokenFailsParse | ares-turbo-loader/src/main/java/cn/ares/turbo/loader/fast/FastJarLoader.java:116-124 | a MalformedURLException on one token fails the whole parse with that exception instead of dropping the token |
| FastJarLoaders.ParseClassPath | ares-turbo-loader/src/main/java/cn/ares/turbo/loader/fast/FastJarLoader.java:116-137 | filling the array token by token and truncating it gives null when nothing survives, else exactly the survivors in order |
| FastJarLoaders.ParsedClassPathBounds | ares-turbo-loader/src/main/java/cn/ares/turbo/loader/fast/FastJarLoader.java:116-137 | a parsed Class-Path has at least one URL and no more URLs than tokens |
| FastJarLoaders.JarClassPath | ares-turbo-loader/src/main/java/cn/ares/turbo/loader/fast/FastJarLoader.java:97-110 | no Class-Path attribute gives null; otherwise the attribute parsed against the code source URL |
| FastJarLoaders.FindNamed | ares-turbo-loader/src/main/java/cn/ares/turbo/loader/fast/FastJarLoader.java:303 | an entry is found exactly when the archive has one with that exact name, and it has that name |
| FastJarLoaders.FindEntry | ares-turbo-loader/src/main/java/cn/ares/turbo/loader/fast/FastJarLoader.java:302-304 | getJarEntry finds an entry exactly when one has the name, or the name is non-empty, does not end in '/' and a directory entry name + "/" exists; an exact match wins |
| FastJarLoaders.DirectoryEntryFallback | ares-turbo-loader/src/main/java/cn/ares/turbo/loader/fast/FastJarLoader.java:302-304 | a directory entry is found under its name without the trailing '/' when no entry has that name itself |
| FastJarLoaders.JarBase | ares-turbo-loader/src/main/java/cn/ares/turbo/loader/fast/FastJarLoader.java:46-51 | a URL whose path ends in "!/" is its own base; any other becomes jar:<url>!/ |
| FastJarLoaders.FastJarLoader.constructor | ares-turbo-loader/src/main/java/cn/ares/turbo/loader/fast/FastJarLoader.java:46-51 | the loader keeps its URLs and archive, is open and has no keys yet |
| FastJarLoaders.FastJarLoader.GetIndexKeys | ares-turbo-loader/src/main/java/cn/ares/turbo/loader/fast/FastJarLoader.java:53-59 | the keys are the archive's key set, computed on the first call and reused afterwards |
| FastJarLoaders.FastJarLoader.GetClassPath | ares-turbo-loader/src/main/java/cn/ares/turbo/loader/fast/FastJarLoader.java:97-110 | the manifest's Class-Path parsed against the code source URL |
| FastJarLoaders.FastJarLoader.Close | ares-turbo-loader/src/main/java/cn/ares/turbo/loader/fast/FastJarLoader.java:205-213 | the archive is closed on the first call only, whose IOException is the result; later calls do nothing |
| FastJarLoaders.FastJarLoader.GetResource | ares-turbo-loader/src/main/java/cn/ares/turbo/loader/fast/FastJarLoader.java:241-285 | a closed archive throws IllegalStateException("zip file closed"); otherwise null exactly when getJarEntry finds no entry for the name (exact name, else the directory entry name + "/") or its URL is malformed; a hit carries the name, the entry URL, the code source URL, the entry bytes and the manifest |
| FastJarLoaders.FastJarLoader.FindResource | ares-turbo-loader/src/main/java/cn/ares/turbo/loader/fast/FastJarLoader.java:290-296 | getResource's exception when it throws, else its URL, null exactly when getResource is null |
| FastJarLoaders.UnknownSizeIsUnknownLength | ares-turbo-loader/src/main/java/cn/ares/turbo/loader/fast/FastJarLoader.java:268-270 | an entry of unknown size found in an open archive gives a resource whose content length is -1 |
| FastJarLoaders.OpenJarLoader | ares-turbo-loader/src/main/java/cn/ares/turbo/loader/fast/FastJarLoader.java:219-235 | opening succeeds exactly for an available archive; otherwise the failure is an IOException |
| FastFileLoaders.NestedByPosition | ares-turbo-loader/src/main/java/cn/ares/turbo/loader/fast/FastFileLoader.java:60-68 | a path is collected exactly when some sub-directory of the listing has it as its own path or collects it below itself |
| FastFileLoaders.DirKeys | ares-turbo-loader/src/main/java/cn/ares/turbo/loader/fast/FastFileLoader.java:38-58 | a root that is not a directory has no keys; a directory with a null listing has just "" |
| FastFileLoaders.DirKeysOfListing | ares-turbo-loader/src/main/java/cn/ares/turbo/loader/fast/FastFileLoader.java:42-51 | the keys of a listable directory are "", every top-level name, and every nested directory's "/"-joined path, and nothing else |
| FastFileLoaders.TopLevelFileIsKey | ares-turbo-loader/src/main/java/cn/ares/turbo/loader/fast/FastFileLoader.java:46-47 | a top-level file's name is a key |
| FastFileLoaders.NestedFileIsNoKey | ares-turbo-loader/src/main/java/cn/ares/turbo/loader/fast/FastFileLoader.java:60-68 | a file inside a sub-directory is not a key unless a directory path coincides with its path |
| FastFileLoaders.NestedHasPrefix | ares-turbo-loader/src/main/java/cn/ares/turbo/loader/fast/FastFileLoader.java:60-68 | every path collected under a prefix starts with that prefix |
| FastFileLoaders.CollectDir | ares-turbo-loader/src/main/java/cn/ares/turbo/loader/fast/FastFileLoader.java:60-68 | the recursion adds exactly the nested directory paths, and fails with NullPointerException when some directory on the way cannot be listed |
| FastFileLoaders.GetIndexKeys0 | ares-turbo-loader/src/main/java/cn/ares/turbo/loader/fast/FastFileLoader.java:38-58 | the loop over the listing gives exactly the directory's keys |
| FastFileLoaders.FastFileLoader.constructor | ares-turbo-loader/src/main/java/cn/ares/turbo/loader/fast/FastFileLoader.java:20-28 | the loader keeps its URL and directory and has no keys yet |
| FastFileLoaders.FastFileLoader.GetIndexKeys | ares-turbo-loader/src/main/java/cn/ares/turbo/loader/fast/FastFileLoader.java:30-36 | the keys are the directory's keys; a successful computation is kept and reused, a failed one leaves nothing memoised |
| FastFileLoaders.FastFileLoader.ResolvedFile | ares-turbo-loader/src/main/java/cn/ares/turbo/loader/fast/FastFileLoader.java:92-102 | a name without ".." is joined to the directory as is; one with ".." is canonicalised and kept only when its path starts, as a string, with the directory's path |
| FastFileLoaders.FastFileLoader.GetResource | ares-turbo-loader/src/main/java/cn/ares/turbo/loader/fast/FastFileLoader.java:81-131 | a resource is returned exactly when the URL stays under the base resolved against ".", the file stays inside the directory and exists (a directory exists too); it carries the name, URL, base and file content |
| FastFileLoaders.FastFileLoader.FindResource | ares-turbo-loader/src/main/java/cn/ares/turbo/loader/fast/FastFileLoader.java:73-79 | the URL of getResource, or null exactly when getResource is null |
| FastFileLoaders.PlainPrefixAdmitsSibling | ares-turbo-loader/src/main/java/cn/ares/turbo/loader/fast/FastFileLoader.java:96 | the plain string prefix test accepts a file in the sibling directory /srv/app-data for the directory /srv/app |
| FastFileLoaders.OpenFileLoader | ares-turbo-loader/src/main/java/cn/ares/turbo/loader/fast/FastFileLoader.java:20-28 | a protocol other than "file" throws IllegalArgumentException; otherwise the loader exists exactly when the decoded path has a canonical form, and other failures are IOExceptions |
| FastLoaders.Loader.BaseURL | ares-turbo-loader/src/main/java/cn/ares/turbo/loader/fast/FastLoader.java:9-23 | the base URL is the constant the loader was constructed with |
| FastLoaders.Loader.ClassPathSpec | ares-turbo-loader/src/main/java/cn/ares/turbo/loader/fast/FastLoader.java:27-29 | a directory loader declares no extra locations (null) |
| FastLoaders.Loader.GetResource | ares-turbo-loader/src/main/java/cn/ares/turbo/loader/fast/FastLoader.java:33 | a loader's getResource is its subclass's; only a jar loader can throw |
| FastLoaders.Loader.FindResource | ares-turbo-loader/src/main/java/cn/ares/turbo/loader/fast/FastLoader.java:31-33 | findResource throws what getResource throws, else is getResource mapped to its URL, null exactly when getResource is null |
| FastLoaders.JarKeysNeverFail | ares-turbo-loader/src/main/java/cn/ares/turbo/loader/fast/FastJarLoader.java:53-59 | a jar loader's keys always succeed |
| FastLoaders.GetIndexKeys | ares-turbo-loader/src/main/java/cn/ares/turbo/loader/fast/FastLoader.java:25 | getIndexKeys of either loader kind yields that loader's key specification |
| FastLoaders.GetClassPath | ares-turbo-loader/src/main/java/cn/ares/turbo/loader/fast/FastLoader.java:27-29 | the jar's Class-Path, or null for a directory loader; a failure is an IOException |
| FastLoaders.ClassPathFailsWithIOException | ares-turbo-loader/src/main/java/cn/ares/turbo/loader/fast/FastJarLoader.java:97-137 | reading a jar's Class-Path fails only with MalformedURLException |
| FastLoaders.Close | ares-turbo-loader/src/main/java/cn/ares/turbo/loader/fast/FastLoader.java:39-40 | a directory loader's close does nothing and never throws; a jar loader ends closed and throws only when it was open and its archive's close fails |
| FastLoaderIndexes.WorkerCount | ares-turbo-loader/src/main/java/cn/ares/turbo/loader/fast/FastLoaderIndex.java:28 | 1 without multi-threading, else min(length / 10, 4) (4 above 100 loaders); separate threads run exactly from 20 loaders on |
| FastLoaderIndexes.KeysOf | ares-turbo-loader/src/main/java/cn/ares/turbo/loader/fast/FastLoaderIndex.java:31-45 | on success, one key set per loader, in order, each that loader's keys |
| FastLoaderIndexes.KeysOfAppend | ares-turbo-loader/src/main/java/cn/ares/turbo/loader/fast/FastLoaderIndex.java:58-71 | over loaders whose keys succeed, appending loaders keeps the keys succeeding exactly when the appended loaders' keys succeed |
| FastLoaderIndexes.KeysOfFailure | ares-turbo-loader/src/main/java/cn/ares/turbo/loader/fast/FastLoaderIndex.java:58-71 | the key computation fails exactly when some loader's keys fail, with the error of the first such loader |
| FastLoaderIndexes.PicksFacts | ares-turbo-loader/src/main/java/cn/ares/turbo/loader/fast/FastLoaderIndex.java:72-84 | the selected positions are in range, strictly increasing, and exactly the flagged positions |
| FastLoaderIndexes.SelectIsPicks | ares-turbo-loader/src/main/java/cn/ares/turbo/loader/fast/FastLoaderIndex.java:72-84 | selection keeps exactly the flagged loaders, each once, in search-path order |
| FastLoaderIndexes.AllKeys | ares-turbo-loader/src/main/java/cn/ares/turbo/loader/fast/FastLoaderIndex.java:86 | a key is in the union exactly when some loader holds it |
| FastLoaderIndexes.IndexContents | ares-turbo-loader/src/main/java/cn/ares/turbo/loader/fast/FastLoaderIndex.java:72-81 | a key is mapped exactly when some loader holds it, and its list is exactly the loaders holding it, each once, in search-path order |
| FastLoaderIndexes.FallbackContents | ares-turbo-loader/src/main/java/cn/ares/turbo/loader/fast/FastLoaderIndex.java:82-84 | the fallback list is exactly the directory loaders, each once, in search-path order |
| FastLoaderIndexes.BuildIndex | ares-turbo-loader/src/main/java/cn/ares/turbo/loader/fast/FastLoaderIndex.java:23-87 | the build gives the index of the loaders' keys, or IllegalStateException carrying the first failure as suppressed |
| FastLoaderIndexes.MergeKeys | ares-turbo-loader/src/main/java/cn/ares/turbo/loader/fast/FastLoaderIndex.java:72-84 | the merge loop produces exactly the index of the key sets |
| FastLoaderIndexes.AddLoader | ares-turbo-loader/src/main/java/cn/ares/turbo/loader/fast/FastLoaderIndex.java:74-80 | the loader is appended to the list of each of its keys, a missing list being started empty, and other keys are untouched |
| FastLoaderIndexes.Get | ares-turbo-loader/src/main/java/cn/ares/turbo/loader/fast/FastLoaderIndex.java:89-103 | a name starting with "." gets the fallback list; otherwise the exact key's list, else the list of the text before the last '/', else the fallback list |
| FastLoaderIndexes.GetIndexKeys | ares-turbo-loader/src/main/java/cn/ares/turbo/loader/fast/FastLoaderIndex.java:105-107 | the index's key set |
| FastLoaderIndexes.GetKeepsHolders | ares-turbo-loader/src/main/java/cn/ares/turbo/loader/fast/FastLoaderIndex.java:89-103 | a loader holding the name, or (when no loader does) its package, is always among the candidates |
| FastLoaderIndexes.OnePrefixLevelOnly | ares-turbo-loader/src/main/java/cn/ares/turbo/loader/fast/FastLoaderIndex.java:93-102 | only one package level is tried: "a/b/C.class" falls back when neither it nor "a/b" is a key |
| FastURLClassPaths.GetLoader | ares-turbo-loader/src/main/java/cn/ares/turbo/loader/fast/FastURLClassPath.java:256-269 | "jar" gives a jar loader; a file part ending in '/' gives a directory loader for "file" and IllegalStateException otherwise; anything else a jar loader; opening failures are IOExceptions |
| FastURLClassPaths.PushUrls | ares-turbo-loader/src/main/java/cn/ares/turbo/loader/fast/FastURLClassPath.java:245-251 | the URLs pushed in reverse pop in their own order, before the rest of the stack |
| FastURLClassPaths.TraversalOf | ares-turbo-loader/src/main/java/cn/ares/turbo/loader/fast/FastURLClassPath.java:225-240 | the platform's traversal is bounded and answers for every URL as the platform does |
| FastURLClassPaths.NextShrinks | ares-turbo-loader/src/main/java/cn/ares/turbo/loader/fast/FastURLClassPath.java:225-240 | each worklist turn maps a new jar key, or pops a URL, or stops, so the worklist ends |
| FastURLClassPaths.Run | ares-turbo-loader/src/main/java/cn/ares/turbo/loader/fast/FastURLClassPath.java:225-240 | the worklist runs to an empty stack or an exception, and the URLs opened only grow at the end |
| FastURLClassPaths.RunDedup | ares-turbo-loader/src/main/java/cn/ares/turbo/loader/fast/FastURLClassPath.java:228-232 | no two opened URLs share a fragment-free string, none was mapped before, and the keys added are exactly theirs |
| FastURLClassPaths.StartDedup | ares-turbo-loader/src/main/java/cn/ares/turbo/loader/fast/FastURLClassPath.java:215-243 | started from a URL list, the worklist never opens two URLs with one key |
| FastURLClassPaths.RunAppend | ares-turbo-loader/src/main/java/cn/ares/turbo/loader/fast/FastURLClassPath.java:225-237 | depth-first order: the worklist over s1 + s2 runs s1 with everything it declares first, then s2 |
| FastURLClassPaths.FailingUrlsAreSkipped | ares-turbo-loader/src/main/java/cn/ares/turbo/loader/fast/FastURLClassPath.java:233-240 | URLs whose loaders fail to open are skipped silently and are not mapped |
| FastURLClassPaths.OpenUrl | ares-turbo-loader/src/main/java/cn/ares/turbo/loader/fast/FastURLClassPath.java:233-240 | a loader is opened exactly for a URL the traversal opens; an IOException (also from getClassPath) is swallowed; other exceptions are the traversal's stop |
| FastURLClassPaths.Turn | ares-turbo-loader/src/main/java/cn/ares/turbo/loader/fast/FastURLClassPath.java:225-240 | one loop turn takes the worklist from its state to the traversal's next state, keeps the loaders and map in step, and only appends fresh loaders |
| FastURLClassPaths.CreateLoaders | ares-turbo-loader/src/main/java/cn/ares/turbo/loader/fast/FastURLClassPath.java:215-243 | the loaders are those of the URLs the worklist opens, in order, each mapped under its key; earlier map entries stay; an IllegalStateException escapes |
| FastURLClassPaths.KeysOfLoadersFor | ares-turbo-loader/src/main/java/cn/ares/turbo/loader/fast/FastURLClassPath.java:56-63 | the key sets of the loaders opened for URLs depend only on those URLs |
| FastURLClassPaths.CloseErrors | ares-turbo-loader/src/main/java/cn/ares/turbo/loader/fast/FastURLClassPath.java:85-96 | one close error per failing loader at most, each the archive's IOException |
| FastURLClassPaths.CloseAt | ares-turbo-loader/src/main/java/cn/ares/turbo/loader/fast/FastURLClassPath.java:88-93 | closing one loader reports its failure and leaves every other loader as it was |
| FastURLClassPaths.CloseAll | ares-turbo-loader/src/main/java/cn/ares/turbo/loader/fast/FastURLClassPath.java:85-96 | every loader is closed in order, each IOException collected and the loop continuing; every jar loader ends closed |
| FastURLClassPaths.IndexExtended | ares-turbo-loader/src/main/java/cn/ares/turbo/loader/fast/FastURLClassPath.java:72-76 | the loaders extended by the new ones, and the index rebuilt single-threaded over all of them |
| FastURLClassPaths.FastURLClassPath.constructor | ares-turbo-loader/src/main/java/cn/ares/turbo/loader/fast/FastURLClassPath.java:56-63 | the class path holds its path, loaders, index and map, and is open |
| FastURLClassPaths.FastURLClassPath.AddURL | ares-turbo-loader/src/main/java/cn/ares/turbo/loader/fast/FastURLClassPath.java:65-77 | on success the path gains url at its end, the old loaders are a prefix of the new ones and the index is rebuilt; the exception is the worklist's when it fails, else it is thrown exactly when some new loader's keys fail; an exception leaves path, loaders and index as they were |
| FastURLClassPaths.FastURLClassPath.Reindex | ares-turbo-loader/src/main/java/cn/ares/turbo/loader/fast/FastURLClassPath.java:72-76 | path, loaders and index are replaced together; the exception is thrown exactly when the index over the old loaders plus the new fails, is that failure, and keeps all three |
| FastURLClassPaths.FastURLClassPath.CloseLoaders | ares-turbo-loader/src/main/java/cn/ares/turbo/loader/fast/FastURLClassPath.java:79-98 | the first call closes every loader and returns every close error in order; later calls close nothing, leave every loader as it was and return no errors |
| FastURLClassPaths.FastURLClassPath.GetURLs | ares-turbo-loader/src/main/java/cn/ares/turbo/loader/fast/FastURLClassPath.java:103-108 | a copy of the search path |
| FastURLClassPaths.FastURLClassPath.GetIndexKeys | ares-turbo-loader/src/main/java/cn/ares/turbo/loader/fast/FastURLClassPath.java:110-112 | the union of every loader's keys |
| FastURLClassPaths.FastURLClassPath.GetResource | ares-turbo-loader/src/main/java/cn/ares/turbo/loader/fast/FastURLClassPath.java:124-132 | the loop over the index's candidates returns the first non-null resource, or the exception of the first candidate that throws before one is found (a closed archive), or null |
| FastURLClassPaths.FastURLClassPath.FindResource | ares-turbo-loader/src/main/java/cn/ares/turbo/loader/fast/FastURLClassPath.java:114-122 | the same for URLs: the first non-null URL, or the first exception met before it, or null |
| FastURLClassPaths.FastURLClassPath.FindResources | ares-turbo-loader/src/main/java/cn/ares/turbo/loader/fast/FastURLClassPath.java:141-145 | an enumeration that will yield every candidate's URL hit or exception, in order |
| FastURLClassPaths.FastURLClassPath.GetResources | ares-turbo-loader/src/main/java/cn/ares/turbo/loader/fast/FastURLClassPath.java:178-182 | an enumeration that will yield every candidate's resource hit or exception, in order |
| FastURLClassPaths.Create | ares-turbo-loader/src/main/java/cn/ares/turbo/loader/fast/FastURLClassPath.java:56-63 | the loaders the worklist opens from the URLs against an empty map, indexed; the worklist's or the index's exception escapes |
| FastURLClassPaths.FirstHit | ares-turbo-loader/src/main/java/cn/ares/turbo/loader/fast/FastURLClassPath.java:124-132 | the first candidate whose getResource is not null decides: its resource or its exception; every candidate before it returned null; null means every candidate returns null |
| FastURLClassPaths.ResourceAnswers | ares-turbo-loader/src/main/java/cn/ares/turbo/loader/fast/FastURLClassPath.java:124-132 | the answers of the candidates' getResource, one per candidate, in order |
| FastURLClassPaths.UrlAnswers | ares-turbo-loader/src/main/java/cn/ares/turbo/loader/fast/FastURLClassPath.java:114-122 | the answers of the candidates' findResource, one per candidate, in order |
| FastURLClassPaths.First | ares-turbo-loader/src/main/java/cn/ares/turbo/loader/fast/FastURLClassPath.java:114-132 | the first answer that is not null, with every earlier answer null; null only when every answer is null |
| FastURLClassPaths.FirstIsHeadOfHits | ares-turbo-loader/src/main/java/cn/ares/turbo/loader/fast/FastURLClassPath.java:114-213 | the first non-null answer is the head of the sequence of hits and exceptions, which is empty exactly when every answer is null |
| FastURLClassPaths.UrlAnswersOf | ares-turbo-loader/src/main/java/cn/ares/turbo/loader/fast/FastLoader.java:31-33 | each candidate's findResource answer is its getResource answer mapped to the URL |
| FastURLClassPaths.UrlAnswersAgree | ares-turbo-loader/src/main/java/cn/ares/turbo/loader/fast/FastURLClassPath.java:114-213 | over answers related that way, the first URL answer is the first resource answer's URL, and the URL hits are the hits' URLs, one for one |
| FastURLClassPaths.PendingStep | ares-turbo-loader/src/main/java/cn/ares/turbo/loader/fast/FastURLClassPath.java:147-161 | what is pending from a candidate on is that candidate's hit or exception, if any, then what is pending after it |
| FastURLClassPaths.PendingHeld | ares-turbo-loader/src/main/java/cn/ares/turbo/loader/fast/FastURLClassPath.java:147-150 | a held value is delivered first, before anything the remaining candidates answer |
| FastURLClassPaths.PendingExhausted | ares-turbo-loader/src/main/java/cn/ares/turbo/loader/fast/FastURLClassPath.java:151-161 | past the last candidate nothing is pending |
| FastURLClassPaths.AnswersFramed | ares-turbo-loader/src/main/java/cn/ares/turbo/loader/fast/FastURLClassPath.java:147-174 | the candidates answer as before as long as their loaders are as before, so moving a cursor changes no answer |
| FastURLClassPaths.FirstHitIsHeadOfAll | ares-turbo-loader/src/main/java/cn/ares/turbo/loader/fast/FastURLClassPath.java:114-213 | findResource is getResource's URL (or the same exception), and the first hit is the first element of getResources, which is empty exactly when there is no hit |
| FastURLClassPaths.UrlHitsAreHitUrls | ares-turbo-loader/src/main/java/cn/ares/turbo/loader/fast/FastURLClassPath.java:141-213 | findResources yields exactly the URLs of what getResources yields, exceptions included, in the same order |
| FastURLClassPaths.UrlEnumeration.constructor | ares-turbo-loader/src/main/java/cn/ares/turbo/loader/fast/FastURLClassPath.java:142-145 | a new enumeration has all the URL hits and exceptions still to yield |
| FastURLClassPaths.UrlEnumeration.Next | ares-turbo-loader/src/main/java/cn/ares/turbo/loader/fast/FastURLClassPath.java:147-161 | false exactly when nothing remains; true with the next URL held, leaving what remains unchanged; a loader's exception is thrown and no longer remains (the cursor has passed it) |
| FastURLClassPaths.UrlEnumeration.HasMoreElements | ares-turbo-loader/src/main/java/cn/ares/turbo/loader/fast/FastURLClassPath.java:163-165 | repeatable without consuming a URL: true exactly when a URL is next; a pending exception is thrown and consumed |
| FastURLClassPaths.UrlEnumeration.NextElement | ares-turbo-loader/src/main/java/cn/ares/turbo/loader/fast/FastURLClassPath.java:167-174 | the next outcome, consumed: a URL or the loader's exception; NoSuchElementException when exhausted |
| FastURLClassPaths.ResourceEnumeration.constructor | ares-turbo-loader/src/main/java/cn/ares/turbo/loader/fast/FastURLClassPath.java:179-182 | a new enumeration has all the resource hits and exceptions still to yield |
| FastURLClassPaths.ResourceEnumeration.Next | ares-turbo-loader/src/main/java/cn/ares/turbo/loader/fast/FastURLClassPath.java:184-198 | false exactly when nothing remains; true with the next resource held, leaving what remains unchanged; a loader's exception is thrown and no longer remains |
| FastURLClassPaths.ResourceEnumeration.HasMoreElements | ares-turbo-loader/src/main/java/cn/ares/turbo/loader/fast/FastURLClassPath.java:200-202 | repeatable without consuming a resource: true exactly when a resource is next; a pending exception is thrown and consumed |
| FastURLClassPaths.ResourceEnumeration.NextElement | ares-turbo-loader/src/main/java/cn/ares/turbo/loader/fast/FastURLClassPath.java:204-211 | the next outcome, consumed: a resource or the loader's exception; NoSuchElementException when exhausted |
| Platform.DisableCpUrlCheck | ares-turbo-loader/src/main/java/cn/ares/turbo/loader/fast/FastURLClassPath.java:30-36 | the Class-Path URL check is disabled for "true", for the empty string and when the property is unset |
| FastResources.ContentOf | ares-turbo-loader/src/main/java/cn/ares/turbo/loader/fast/FastResource.java:96-125 | a stream without events delivers nothing and does not fail |
| FastResources.ContentOfFailsOnReadFailure | ares-turbo-loader/src/main/java/cn/ares/turbo/loader/fast/FastResource.java:107-113 | a stream's content fails exactly when a read failure is among its events, and holds no more bytes than the stream's size |
| FastResources.InputStream.Read | ares-turbo-loader/src/main/java/cn/ares/turbo/loader/fast/FastResource.java:107-113 | a read takes at most n bytes from the front of what remains; an interrupt delivers nothing, changes no content and consumes exactly one of the stream's interrupts (other reads consume none); end of stream and failure happen only when nothing remains |
| FastResources.InputStream.Close | ares-turbo-loader/src/main/java/cn/ares/turbo/loader/fast/FastResource.java:126-137 | the first close ends as the stream was given; later ones do nothing |
| FastResources.KnownLengthIsExact | ares-turbo-loader/src/main/java/cn/ares/turbo/loader/fast/FastResource.java:90-125 | with a known length L, a successful read returns exactly L bytes, a prefix of what the stream delivers |
| FastResources.ShortStreamFails | ares-turbo-loader/src/main/java/cn/ares/turbo/loader/fast/FastResource.java:114-116 | a known length the stream cannot reach throws EOFException (or the stream's own IOException) |
| FastResources.UnknownLengthIsTrimmed | ares-turbo-loader/src/main/java/cn/ares/turbo/loader/fast/FastResource.java:92-94 | with length -1 the result is trimmed to exactly the bytes delivered before end of stream |
| FastResources.WithoutInterrupts | ares-turbo-loader/src/main/java/cn/ares/turbo/loader/fast/FastResource.java:107-113 | the event list with every interrupt taken out has none |
| FastResources.InterruptCountPositive | ares-turbo-loader/src/main/java/cn/ares/turbo/loader/fast/FastResource.java:110-113 | a stream still holds an InterruptedIOException exactly when its count of them is positive |
| FastResources.InterruptsDoNotAbort | ares-turbo-loader/src/main/java/cn/ares/turbo/loader/fast/FastResource.java:107-113 | interrupts never change what is read |
| FastResources.NextChunk | ares-turbo-loader/src/main/java/cn/ares/turbo/loader/fast/FastResource.java:97-106 | a full buffer grows by min(len - pos, bytes.length + 1024) and the read asks for that much; otherwise it asks for the rest of the buffer; the bytes read so far are kept and the buffer never exceeds len |
| FastResources.ReadLoop | ares-turbo-loader/src/main/java/cn/ares/turbo/loader/fast/FastResource.java:96-125 | the growing-buffer loop gives the result the length and the stream's content determine, and reports an interrupt exactly when one of the reads it made was interrupted |
| FastResources.FastResource.constructor | ares-turbo-loader/src/main/java/cn/ares/turbo/loader/fast/FastResource.java:52-62 | a new resource has no stream open |
| FastResources.FastResource.CachedInputStream | ares-turbo-loader/src/main/java/cn/ares/turbo/loader/fast/FastResource.java:52-62 | the stream is opened on first use and the same stream is returned afterwards |
| FastResources.FastResource.GetBytes | ares-turbo-loader/src/main/java/cn/ares/turbo/loader/fast/FastResource.java:67-139 | the bytes the length and the pending stream determine, or the open failure; the stream is closed on every exit; once the stream opens, the interrupt flag is set on exit exactly when it was set at entry, getContentLength was interrupted, a read was interrupted or close was interrupted |
| FastResources.FastResource.GetManifest | ares-turbo-loader/src/main/java/cn/ares/turbo/loader/fast/FastResource.java:156-158 | null by default (directory resources); a jar resource gives its archive's manifest |
| FastResources.FastResource.GetCertificates | ares-turbo-loader/src/main/java/cn/ares/turbo/loader/fast/FastResource.java:163-165 | null by default; a jar resource gives its entry's certificates |
| FastResources.FastResource.GetCodeSigners | ares-turbo-loader/src/main/java/cn/ares/turbo/loader/fast/FastResource.java:170-172 | null by default; a jar resource gives its entry's code signers |
| FastURLClassLoaders.NameToPath | ares-turbo-loader/src/main/java/cn/ares/turbo/loader/fast/FastURLClassLoader.java:111 | every '.' of a class name becomes '/' and nothing else changes |
| FastURLClassLoaders.ClassResourceName | ares-turbo-loader/src/main/java/cn/ares/turbo/loader/fast/FastURLClassLoader.java:111 | the mapped name followed by ".class" |
| FastURLClassLoaders.ClassResourceNameSeparates | ares-turbo-loader/src/main/java/cn/ares/turbo/loader/fast/FastURLClassLoader.java:111 | names of equal length that differ other than by '.' against '/' map to different resources |
| FastURLClassLoaders.PackageSection | ares-turbo-loader/src/main/java/cn/ares/turbo/loader/fast/FastURLClassLoader.java:210 | the manifest section of a package is its name with '.' turned into '/', plus "/" |
| FastURLClassLoaders.TrueIgnoringCase | ares-turbo-loader/src/main/java/cn/ares/turbo/loader/fast/FastURLClassLoader.java:221 | each of the sixteen spellings of "true" counts as sealing |
| FastURLClassLoaders.SectionOverridesMain | ares-turbo-loader/src/main/java/cn/ares/turbo/loader/fast/FastURLClassLoader.java:209-222 | a package section's Sealed value decides whatever the main attributes say |
| FastURLClassLoaders.MainDecidesOtherwise | ares-turbo-loader/src/main/java/cn/ares/turbo/loader/fast/FastURLClassLoader.java:209-222 | without a section value, the package is sealed exactly when the main Sealed value is "true" ignoring case |
| FastURLClassLoaders.GetAndVerifyPackage | ares-turbo-loader/src/main/java/cn/ares/turbo/loader/fast/FastURLClassLoader.java:129-149 | no package gives null; a sealed package with another code source, or an unsealed one this manifest would seal, throws SecurityException; otherwise the package |
| FastURLClassLoaders.VerifyPasses | ares-turbo-loader/src/main/java/cn/ares/turbo/loader/fast/FastURLClassLoader.java:129-149 | a package sealed to this URL, or unsealed under a manifest that does not seal it, passes |
| FastURLClassLoaders.AddSuppressed | ares-turbo-loader/src/main/java/cn/ares/turbo/loader/fast/FastURLClassLoader.java:84-90 | the exception keeps its kind and message, and the new errors follow its earlier suppressed ones in order |
| FastURLClassLoaders.CloseOutcome | ares-turbo-loader/src/main/java/cn/ares/turbo/loader/fast/FastURLClassLoader.java:68-95 | nothing is thrown exactly when there are no errors; the superclass's error wins, else the first close error; the rest are suppressed |
| FastURLClassLoaders.CloseReportsEveryError | ares-turbo-loader/src/main/java/cn/ares/turbo/loader/fast/FastURLClassLoader.java:68-95 | every close error is either the thrown exception or one of its suppressed errors, in order |
| FastURLClassLoaders.CloseOutcomeAsWritten | ares-turbo-loader/src/main/java/cn/ares/turbo/loader/fast/FastURLClassLoader.java:68-95 | a disabled loader's close throws NullPointerException |
| FastURLClassLoaders.CloseOutcomeIntended | ares-turbo-loader/src/main/java/cn/ares/turbo/loader/fast/FastURLClassLoader.java:68-95 | intended behaviour (see ## Findings): a disabled loader's close reports only the superclass's error; an enabled one reports the combined outcome |
| FastURLClassLoaders.DisabledCloseThrows | ares-turbo-loader/src/main/java/cn/ares/turbo/loader/fast/FastURLClassLoader.java:78 | with nothing to report, the disabled close as written throws, the intended one does not |
| FastURLClassLoaders.FastURLClassLoader.constructor | ares-turbo-loader/src/main/java/cn/ares/turbo/loader/fast/FastURLClassLoader.java:42-46 | the loader keeps its switch, the superclass URLs and its class path |
| FastURLClassLoaders.FastURLClassLoader.AddURL | ares-turbo-loader/src/main/java/cn/ares/turbo/loader/fast/FastURLClassLoader.java:54-61 | disabled, the superclass handles it; enabled, the class path gains the URL, or keeps its path and loaders on an exception |
| FastURLClassLoaders.FastURLClassLoader.GetURLs | ares-turbo-loader/src/main/java/cn/ares/turbo/loader/fast/FastURLClassLoader.java:63-66 | enabled, the class path's search path; disabled, the superclass's |
| FastURLClassLoaders.FastURLClassLoader.GetIndexKeys | ares-turbo-loader/src/main/java/cn/ares/turbo/loader/fast/FastURLClassLoader.java:97-103 | enabled, the union of the loaders' keys; disabled, IllegalStateException |
| FastURLClassLoaders.FastURLClassLoader.FindClass | ares-turbo-loader/src/main/java/cn/ares/turbo/loader/fast/FastURLClassLoader.java:105-122 | enabled, the first resource for the class's ".class" path; the class path's exception escapes; no resource gives ClassNotFoundException carrying the name |
| FastURLClassLoaders.FastURLClassLoader.FindResource | ares-turbo-loader/src/main/java/cn/ares/turbo/loader/fast/FastURLClassLoader.java:231-241 | enabled, the class path's first URL hit, or its exception |
| FastURLClassLoaders.FastURLClassLoader.FindResources | ares-turbo-loader/src/main/java/cn/ares/turbo/loader/fast/FastURLClassLoader.java:243-281 | enabled, an enumeration of every URL hit and exception, in order |
| FastURLClassLoaders.FastURLClassLoader.CloseAsWritten | ares-turbo-loader/src/main/java/cn/ares/turbo/loader/fast/FastURLClassLoader.java:68-95 | as written: disabled throws NullPointerException; enabled closes the class path and throws the combined outcome |
| FastURLClassLoaders.FastURLClassLoader.Close | ares-turbo-loader/src/main/java/cn/ares/turbo/loader/fast/FastURLClassLoader.java:68-95 | intended behaviour (see ## Findings): disabled reports the superclass's error only; enabled closes the class path and throws the combined outcome |
| FastURLClassLoaders.New | ares-turbo-loader/src/main/java/cn/ares/turbo/loader/fast/FastURLClassLoader.java:42-46 | disabled keeps the URLs for the superclass and has no class path; enabled builds the class path from them, whose exception escapes |
| BytesLruCaches.PutReplaces | ares-turbo-loader/src/main/java/cn/ares/turbo/loader/util/BytesLruCache.java:63-76 | put on a present key returns the old bytes, moves the key to the most-recent end, adjusts the weight by the difference and evicts nothing |
| BytesLruCaches.PutEvictsAtMostOne | ares-turbo-loader/src/main/java/cn/ares/turbo/loader/util/BytesLruCache.java:33-41 | put on a new key appends it, and evicts the eldest entry, possibly the new one, exactly when the weight then exceeds the maximum |
| BytesLruCaches.PutMayStayOverweight | ares-turbo-loader/src/main/java/cn/ares/turbo/loader/util/BytesLruCache.java:33-41 | one eviction can leave the weight above the maximum |
| BytesLruCaches.PutBalanced | ares-turbo-loader/src/main/java/cn/ares/turbo/loader/util/BytesLruCache.java:33-76 | put keeps the weight equal to the sum of the stored lengths |
| BytesLruCaches.PutKeepsKeysDistinct | ares-turbo-loader/src/main/java/cn/ares/turbo/loader/util/BytesLruCache.java:63-76 | put keeps every key stored once |
| BytesLruCaches.GetKeepsContents | ares-turbo-loader/src/main/java/cn/ares/turbo/loader/util/BytesLruCache.java:53-61 | get returns the stored bytes and only reorders: the same entries, the key moved to the end, the weight unchanged |
| BytesLruCaches.RemoveUnbalances | ares-turbo-loader/src/main/java/cn/ares/turbo/loader/util/BytesLruCache.java:78-86 | removing a non-empty entry leaves the weight untouched and so no longer the sum of the lengths |
| BytesLruCaches.ClearUnbalances | ares-turbo-loader/src/main/java/cn/ares/turbo/loader/util/BytesLruCache.java:98-106 | clearing a non-empty cache leaves a weight that matches no contents |
| BytesLruCaches.BytesLruCache.constructor | ares-turbo-loader/src/main/java/cn/ares/turbo/loader/util/BytesLruCache.java:28-31 | an empty cache with weight 0 |
| BytesLruCaches.BytesLruCache.Put | ares-turbo-loader/src/main/java/cn/ares/turbo/loader/util/BytesLruCache.java:63-76 | the cache moves to the state put specifies and keeps the weight invariant when it held |
| BytesLruCaches.BytesLruCache.Get | ares-turbo-loader/src/main/java/cn/ares/turbo/loader/util/BytesLruCache.java:53-61 | the cache moves to the state get specifies; the weight does not change |
| BytesLruCaches.BytesLruCache.ContainsKey | ares-turbo-loader/src/main/java/cn/ares/turbo/loader/util/BytesLruCache.java:43-51 | true exactly when some entry has the key |
| BytesLruCaches.BytesLruCache.Size | ares-turbo-loader/src/main/java/cn/ares/turbo/loader/util/BytesLruCache.java:88-96 | the number of entries |
| BytesLruCaches.BytesLruCache.Remove | ares-turbo-loader/src/main/java/cn/ares/turbo/loader/util/BytesLruCache.java:78-86 | the cache moves to the state remove specifies, with the weight untouched |
| BytesLruCaches.BytesLruCache.Clear | ares-turbo-loader/src/main/java/cn/ares/turbo/loader/util/BytesLruCache.java:98-106 | no entries, the weight untouched |
| CollectionUtil.FirstElement | ares-turbo-loader/src/main/java/cn/ares/turbo/loader/util/CollectionUtil.java:354-359 | the element at index 0, null exactly for a null or empty list |
| CollectionUtil.LastElement | ares-turbo-loader/src/main/java/cn/ares/turbo/loader/util/CollectionUtil.java:420-425 | the element at index size - 1, null exactly for a null or empty list |
| CollectionUtil.FirstAndLastElement | ares-turbo-loader/src/main/java/cn/ares/turbo/loader/util/CollectionUtil.java:354-425 | a list is non-empty exactly when it has first and last elements; for one element they coincide |
| CollectionUtil.FirstIn | ares-turbo-loader/src/main/java/cn/ares/turbo/loader/util/CollectionUtil.java:235-245 | the first candidate, in candidate order, that the source contains; none exactly when no candidate is contained |
| CollectionUtil.FindFirstMatch | ares-turbo-loader/src/main/java/cn/ares/turbo/loader/util/CollectionUtil.java:235-245 | the loop returns the first contained candidate, and null exactly when either collection is empty or nothing matches |
| CollectionUtil.ContainsAny | ares-turbo-loader/src/main/java/cn/ares/turbo/loader/util/CollectionUtil.java:100-102 | true exactly when some candidate is in the source |
| CollectionUtil.FindValueOfType | ares-turbo-loader/src/main/java/cn/ares/turbo/loader/util/CollectionUtil.java:255-270 | the single matching element, null when none or several match; a null type matches everything |
| CollectionUtil.MatchingGrows | ares-turbo-loader/src/main/java/cn/ares/turbo/loader/util/CollectionUtil.java:255-270 | a longer prefix never has fewer matches, so the loop may stop at the second match |
| CollectionUtil.HasUniqueObject | ares-turbo-loader/src/main/java/cn/ares/turbo/loader/util/CollectionUtil.java:280-295 | false when empty, else true exactly when every element is the same reference as the first (null included) |
| CollectionUtil.SuitableCapacityAsWritten | ares-turbo-loader/src/main/java/cn/ares/turbo/loader/util/CollectionUtil.java:222-224 | as written: the result is the sum 5 + n + n / 10 wrapped to 32 bits (congruent to it modulo 2^32), and the sum itself when it fits in an int |
| CollectionUtil.SuitableCapacityOverflows | ares-turbo-loader/src/main/java/cn/ares/turbo/loader/util/CollectionUtil.java:222-224 | as written, Integer.MAX_VALUE gives a negative capacity |
| CollectionUtil.SuitableCapacity | ares-turbo-loader/src/main/java/cn/ares/turbo/loader/util/CollectionUtil.java:222-224 | intended behaviour (see ## Findings): 5 + n + n / 10 when it fits in an int, else Integer.MAX_VALUE; never below a non-negative request |
| CollectionUtil.SuitableCapacityAgreesWhenNoOverflow | ares-turbo-loader/src/main/java/cn/ares/turbo/loader/util/CollectionUtil.java:222-224 | wherever the sum fits in an int, the code as written gives the intended capacity |
| CollectionUtil.SuitableCapacityNegativeExactly | ares-turbo-loader/src/main/java/cn/ares/turbo/loader/util/CollectionUtil.java:166-168 | for an array length the as-written capacity is negative exactly above 1952257857 |
| CollectionUtil.NewArrayList | ares-turbo-loader/src/main/java/cn/ares/turbo/loader/util/CollectionUtil.java:147-168 | exactly the given elements in order; a null array throws NullPointerException; an as-written capacity that wrapped negative throws IllegalArgumentException("Illegal Capacity: " + capacity), and only then |
| CollectionUtil.AsList | ares-turbo-loader/src/main/java/cn/ares/turbo/loader/util/CollectionUtil.java:178-181 | exactly the given elements in order; null throws NullPointerException; an array longer than 1952257857 elements throws IllegalArgumentException, and only such an array |
| MapUtil.CheckNonNegative | ares-turbo-loader/src/main/java/cn/ares/turbo/loader/util/MapUtil.java:151-156 | the value when it is non-negative, else IllegalArgumentException with the message name + " cannot be negative but was: " + value |
| MapUtil.NegativeMessage | ares-turbo-loader/src/main/java/cn/ares/turbo/loader/util/MapUtil.java:153 | the message is the name, " cannot be negative but was: ", then the value in decimal, which reads back as the value |
| Text.NatToDecimal | ares-turbo-loader/src/main/java/cn/ares/turbo/loader/util/MapUtil.java:153 | the decimal digits of a natural number: at least one, all digits, with a leading '0' exactly for zero |
| Text.NatToDecimalValue | ares-turbo-loader/src/main/java/cn/ares/turbo/loader/util/MapUtil.java:153 | reading the digits back gives the number |
| Text.IntToDecimal | ares-turbo-loader/src/main/java/cn/ares/turbo/loader/util/MapUtil.java:153 | String.valueOf(int): digits, after a minus sign exactly when the number is negative |
| Text.IntToDecimalRoundTrip | ares-turbo-loader/src/main/java/cn/ares/turbo/loader/util/MapUtil.java:153 | parsing the decimal text of any int gives it back |
| MapUtil.Capacity | ares-turbo-loader/src/main/java/cn/ares/turbo/loader/util/MapUtil.java:137-149 | a negative size throws IllegalArgumentException; n + 1 below 3; Integer.MAX_VALUE from 2^30 on |
| MapUtil.CapacityIntegerBranches | ares-turbo-loader/src/main/java/cn/ares/turbo/loader/util/MapUtil.java:137-149 | outside the float branch, the capacity exceeds the expected size or is saturated |
| MapUtil.ParseValue | ares-turbo-loader/src/main/java/cn/ares/turbo/loader/util/MapUtil.java:190-195 | the key's value, and null exactly for a null map or a missing key |
| MapUtil.ParseValueOrDefault | ares-turbo-loader/src/main/java/cn/ares/turbo/loader/util/MapUtil.java:205-210 | the default for a null or empty map, else parseValue |
| MapUtil.DefaultOnlyForEmptyMap | ares-turbo-loader/src/main/java/cn/ares/turbo/loader/util/MapUtil.java:205-210 | a present map missing the key gives null, not the default |
| MapUtil.FromProperties | ares-turbo-loader/src/main/java/cn/ares/turbo/loader/util/MapUtil.java:221-234 | null gives an empty map; otherwise the property names are the keys |
| IntegerUtil.SaturatedCast | ares-turbo-loader/src/main/java/cn/ares/turbo/loader/util/IntegerUtil.java:50-56 | the int nearest the value, the value itself when it fits |
| IntegerUtil.SaturatedCastClamps | ares-turbo-loader/src/main/java/cn/ares/turbo/loader/util/IntegerUtil.java:51-54 | above the int range Integer.MAX_VALUE, below it Integer.MIN_VALUE |
| IntegerUtil.SaturatedCastMonotone | ares-turbo-loader/src/main/java/cn/ares/turbo/loader/util/IntegerUtil.java:50-56 | saturatedCast preserves order |
| IntegerUtil.ParseInteger | ares-turbo-loader/src/main/java/cn/ares/turbo/loader/util/IntegerUtil.java:19-24 | null for null, otherwise the parse of the text, failing exactly when it fails |
| IntegerUtil.ParseIntegerOrDefault | ares-turbo-loader/src/main/java/cn/ares/turbo/loader/util/IntegerUtil.java:35-40 | the default for null, otherwise parseInteger |
| LayoutFactory.GetLayout | ares-turbo-loader-tool/src/main/java/cn/ares/turbo/loader/tools/AresTurboLayoutFactory.java:39-56 | a null file throws IllegalArgumentException("File must not be null"); a ".jar" name gives the custom Jar layout; any failure for a file is IllegalStateException("Unable to deduce layout for '" + file + "'") |
| LayoutFactory.FileRef.Name | ares-turbo-loader-tool/src/main/java/cn/ares/turbo/loader/tools/AresTurboLayoutFactory.java:43 | getName() is the end of the path after its last '/', and holds no '/' |
| LayoutFactory.GetLayoutDecision | ares-turbo-loader-tool/src/main/java/cn/ares/turbo/loader/tools/AresTurboLayoutFactory.java:43-54 | ".jar" wins even for a directory, then ".war"; a directory or ".zip" is Expanded; anything else throws IllegalStateException naming the file's path; it fails exactly in that last case |
| LayoutFactory.ExtensionCaseIgnored | ares-turbo-loader-tool/src/main/java/cn/ares/turbo/loader/tools/AresTurboLayoutFactory.java:43 | files whose names differ only in case both get the same layout, or both get none |
| LayoutFactory.LauncherClassName | ares-turbo-loader-tool/src/main/java/cn/ares/turbo/loader/tools/AresTurboLayoutFactory.java:31-36 | the custom Jar layout launches cn.ares.turbo.loader.AresJarLauncher |
| LayoutFactory.WrittenLoaderJars | ares-turbo-loader-tool/src/main/java/cn/ares/turbo/loader/tools/AresTurboLayoutFactory.java:21-29 | the Spring Boot loader jar is written, then the ares loader jar |

## Left out

- Threads in the index build: the workers, `CountDownLatch` and `AtomicInteger` are not modelled. The build
  is the sequential loop, plus `WorkerCount`. The sequential loop stops at the first failing loader, so the
  IllegalStateException carries one suppressed error, where parallel workers could collect several.
  The constructor's `multiThreads` flag only chooses the worker count, so `BuildIndex` has no such parameter.
- FastJarLoaders.FastJarLoader.GetIndexKeys: on a closed archive whose keys were never computed,
  `jar.entries()` would throw IllegalStateException. The model does not promise that exception. Every
  loader's keys are computed by the index build while it is still open, and later calls reuse them.
- FastJarLoaders.FastJarLoader.GetClassPath: it is called only on a loader just opened, so the exception
  a closed archive's `getManifest()` would throw is not modelled.
- LayoutFactory.FileRef.Name: the name separator is '/'; other platforms' separators are not modelled.
- Locks and memory visibility: the `ReentrantLock`s, the static read/write lock of `BytesLruCache`, and
  `volatile` fields. `addURL`'s three field writes are one sequential step, with no claim about concurrent
  readers.
- Real I/O: zip parsing, `getJarFile` with its remote connection, the file system, and `ParseUtil`/`URLUtil`
  encoding and `new URL(base, spec)`. These are given functions and data in `Platform.Env`. An archive's
  entries never fail to read.
- The superclass `URLClassLoader`: a disabled class loader's calls return `Super`, with no model of what the
  superclass does. The superclass's close error is an input.
- `defineClass`, `definePackageInternal`, `CodeSource`, `getByteBuffer` and `registerAsParallelCapable`. The
  JVM defines classes; `getPackage` is a map of package names given as input.
- FastURLClassLoaders.FastURLClassLoader.FindResources: the wrapper enumeration the class loader builds
  passes the class path's URLs through unchanged, so it is modelled as that enumeration.
- The Java 6 `NoSuchMethodError` branches of `close`.
- The float branch of `MapUtil.capacity` is a given function.
- The `Properties` loops of `mergePropertiesIntoMap`; `fromProperties` takes the properties as a map.
- `CollectionUtil.random` (randomness), `findCommonElementType` (reflection), `toArray(Enumeration)`,
  `newHashSet`, `containsInstance`, the Set and Collection overloads of first/last element, and the other
  list/set factories: they are outside the modelled helpers.
- The `MapUtil` map factories `newHashMap`, `newMap`, `newLinkedHashMap` and `newConcurrentMap`.
- The body of `Integer.parseInt` is a given function.
- IoUtil.java, NameThreadFactory.java and AresJarLauncher.java are not part of this model.
- Spring Boot's `Layout` objects: only the choice `getLayout` makes is modelled.
- BytesLruCaches.BytesLruCache.Put: the `used` counter is an unbounded integer, so its 32-bit wrap-around
  is not modelled; the inherited `LinkedHashMap` methods other than those overridden are not modelled.
- Null keys, names and values are not modelled: names are strings, and a collection or map argument is an
  `Option` only where the helpers test for null.
- Text: manifest attribute names are compared exactly ("Sealed"); case-insensitive comparisons fold ASCII
  letters only.
- FastURLClassPaths.CreateLoaders takes `fastLoaderMap` as a value and returns the updated map, rather than
  updating the caller's map in place; the worklist's loop body is the helper method `Turn`.
- FastURLClassPaths.FastURLClassPath.GetIndexKeys: a directory loader's keys can fail with a
  NullPointerException; the index build has already computed every loader's keys, so the union is stated
  over those.
- The URL port and the fragment are folded into `Platform.Url` and the given functions.

## Findings

| source | as written | input that shows it | evidently intended | confidence | as-written member | corrected member |
|---|---|---|---|---|---|---|
| ares-turbo-loader/src/main/java/cn/ares/turbo/loader/util/CollectionUtil.java:222-224 | `5 + arraySize + arraySize / 10` is computed in int arithmetic, which wraps, before it is widened for `saturatedCast` | arraySize = Integer.MAX_VALUE gives -1932735280; an array of 1952257858 elements makes `newArrayList` throw IllegalArgumentException (CollectionUtil.SuitableCapacityNegativeExactly) | the sum computed in long and saturated to Integer.MAX_VALUE | not executed | CollectionUtil.SuitableCapacityOverflows | CollectionUtil.SuitableCapacityAgreesWhenNoOverflow |
| ares-turbo-loader/src/main/java/cn/ares/turbo/loader/fast/FastURLClassLoader.java:68-95 | `close` calls `fastURLClassPath.closeLoaders()` without checking `enable` | a class loader built with enable = false, closed with no superclass error, throws NullPointerException | a disabled loader closes only its superclass | not executed | FastURLClassLoaders.DisabledCloseThrows | FastURLClassLoaders.CloseOutcomeIntended |
