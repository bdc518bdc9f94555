/**
 * AresTurboLayoutFactory (the packaging tool): which archive layout a build
 * target gets, decided from its file name and whether it is a directory.
 */
module LayoutFactory {
  import opened Wrappers
  import opened JavaErrors
  import opened Text

  const NESTED_LOADER_JAR: string := "META-INF/loader/spring-boot-loader.jar"
  const NESTED_LOADER_JAR_ARES: string := "META-INF/loader/ares-turbo-loader.jar"
  const ARES_LAUNCHER_CLASS: string := "cn.ares.turbo.loader.AresJarLauncher"

  /** The parts of a java.io.File that getLayout consults: its path (what toString() gives) and whether it is a directory. */
  datatype FileRef = FileRef(path: string, isDirectory: bool)
  {
    /** getName(): the path after its last separator. */
    function Name(): (r: string)
      ensures EndsWith(path, r) && forall i :: 0 <= i < |r| ==> r[i] != '/'
    {
      path[LastIndexOf(path, '/') + 1..]
    }
  }

  /** The message of the IllegalStateException for a file with no layout. */
  function NoLayoutMessage(file: FileRef): string {
    "Unable to deduce layout for '" + file.path + "'"
  }

  /** The layouts: the custom Jar layout of this project, and Spring Boot's War and Expanded layouts. */
  datatype Layout = CustomJar | War | Expanded

  /** getLayout(file) */
  function GetLayout(file: Option<FileRef>): (r: Result<Layout, Exception>)
    ensures file.None? ==> r == Failure(Err(IllegalArgumentException, "File must not be null"))
    ensures file.Some? && EndsWith(ToLowerAscii(file.value.Name()), ".jar") ==> r == Success(CustomJar)
    ensures file.Some? && r.Failure? ==> r.error == Err(IllegalStateException, NoLayoutMessage(file.value))
  {
    if file.None? then Failure(Err(IllegalArgumentException, "File must not be null"))
    else
      var lowerCaseFileName := ToLowerAscii(file.value.Name());
      if EndsWith(lowerCaseFileName, ".jar") then Success(CustomJar)
      else if EndsWith(lowerCaseFileName, ".war") then Success(War)
      else if !file.value.isDirectory && !EndsWith(lowerCaseFileName, ".zip") then
        Failure(Err(IllegalStateException, NoLayoutMessage(file.value)))
      else Success(Expanded)
  }

  /**
   * The decision in full: a ".jar" name wins even for a directory, then ".war";
   * otherwise a directory or a ".zip" is Expanded and anything else has no layout.
   */
  lemma GetLayoutDecision(file: FileRef)
    ensures var lower := ToLowerAscii(file.Name());
      GetLayout(Some(file)) ==
        if EndsWith(lower, ".jar") then Success(CustomJar)
        else if EndsWith(lower, ".war") then Success(War)
        else if file.isDirectory || EndsWith(lower, ".zip") then Success(Expanded)
        else Failure(Err(IllegalStateException, NoLayoutMessage(file)))
    ensures GetLayout(Some(file)).Failure? <==>
      var lower := ToLowerAscii(file.Name());
      !EndsWith(lower, ".jar") && !EndsWith(lower, ".war") && !file.isDirectory && !EndsWith(lower, ".zip")
  {
  }

  /**
   * The case of the name does not matter: files whose names differ only in
   * case get the same layout, or both have none (the message names each path).
   */
  lemma ExtensionCaseIgnored(file: FileRef, other: FileRef)
    requires ToLowerAscii(file.Name()) == ToLowerAscii(other.Name()) && file.isDirectory == other.isDirectory
    ensures GetLayout(Some(file)).Success? <==> GetLayout(Some(other)).Success?
    ensures GetLayout(Some(file)).Success? ==> GetLayout(Some(file)) == GetLayout(Some(other))
  {
  }

  /** Jar.getLauncherClassName(): the custom Jar layout starts AresJarLauncher. */
  function LauncherClassName(layout: Layout): (r: Option<string>)
    ensures layout == CustomJar <==> r == Some(ARES_LAUNCHER_CLASS)
  {
    if layout == CustomJar then Some(ARES_LAUNCHER_CLASS) else None
  }

  /**
   * Jar.writeLoadedClasses(writer): the nested loader jars handed to
   * writer.writeLoaderClasses, in call order.
   */
  function WrittenLoaderJars(layout: Layout): (r: seq<string>)
    requires layout == CustomJar
    ensures |r| == 2 && r[0] == NESTED_LOADER_JAR && r[1] == NESTED_LOADER_JAR_ARES
  {
    [NESTED_LOADER_JAR, NESTED_LOADER_JAR_ARES]
  }
}
