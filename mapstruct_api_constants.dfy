/**
 * internal/MapStructAPIConstants.java: the annotation and member names of the
 * MapStruct API that every other part of the plug-in compares against.
 */
module MapStructApiConstants {
  import opened JavaLang

  /** The MapStruct package prefix, with its trailing dot. */
  const ORG_MAPSTRUCT: string := "org.mapstruct."

  const MAPPER_SIMPLE_NAME: string := "Mapper"
  const MAPPER_FQ_NAME: string := ORG_MAPSTRUCT + MAPPER_SIMPLE_NAME

  const MAPPING_SIMPLE_NAME: string := "Mapping"
  const VALUE_MAPPING_SIMPLE_NAME: string := "ValueMapping"
  const MAPPING_FQ_NAME: string := ORG_MAPSTRUCT + MAPPING_SIMPLE_NAME
  const VALUE_MAPPING_FQ_NAME: string := ORG_MAPSTRUCT + VALUE_MAPPING_SIMPLE_NAME

  const MAPPINGS_SIMPLE_NAME: string := "Mappings"
  const MAPPINGS_FQ_NAME: string := ORG_MAPSTRUCT + MAPPINGS_SIMPLE_NAME

  const MAPPING_MEMBER_SOURCE: string := "source"
  const MAPPING_MEMBER_TARGET: string := "target"
  const MAPPING_MEMBER_IGNORE: string := "ignore"

  const TARGET_TYPE_FQ_NAME: string := "org.mapstruct.TargetType"
  const MAPPING_TARGET_FQ_NAME: string := "org.mapstruct.MappingTarget"

  /** The qualified name of a MapStruct annotation with simple name `simple`. */
  function Qualified(simple: string): string
  {
    ORG_MAPSTRUCT + simple
  }

  /** A MapStruct annotation's qualified name is a Java name when its simple name is an identifier. */
  lemma QualifiedIsName(simple: string)
    requires IsIdentifier(simple)
    ensures IsName(Qualified(simple))
  {
    assert IsIdentifier("org") && IsIdentifier("mapstruct");
    IdentifierIsName(simple);
    NameAfterIdentifier("mapstruct", simple);
    NameAfterIdentifier("org", "mapstruct" + "." + simple);
    assert Qualified(simple) == "org" + "." + ("mapstruct" + "." + simple);
  }

  /** The annotations the quick fixes import have names `AST.newName` accepts. */
  lemma ImportedNamesAreNames()
    ensures IsName(MAPPING_FQ_NAME) && IsName(MAPPINGS_FQ_NAME)
  {
    assert IsIdentifier(MAPPING_SIMPLE_NAME) && IsIdentifier(MAPPINGS_SIMPLE_NAME);
    QualifiedIsName(MAPPING_SIMPLE_NAME);
    QualifiedIsName(MAPPINGS_SIMPLE_NAME);
  }

  /** Qualifying is injective: distinct simple names give distinct qualified names. */
  lemma QualifiedInjective(a: string, b: string)
    ensures Qualified(a) == Qualified(b) <==> a == b
  {
    if Qualified(a) == Qualified(b) {
      assert a == Qualified(a)[|ORG_MAPSTRUCT|..] == Qualified(b)[|ORG_MAPSTRUCT|..] == b;
    }
  }

  /** Each qualified annotation name is the package prefix followed by its simple name. */
  lemma QualifiedNames()
    ensures MAPPER_FQ_NAME == Qualified(MAPPER_SIMPLE_NAME) == "org.mapstruct.Mapper"
    ensures MAPPING_FQ_NAME == Qualified(MAPPING_SIMPLE_NAME) == "org.mapstruct.Mapping"
    ensures VALUE_MAPPING_FQ_NAME == Qualified(VALUE_MAPPING_SIMPLE_NAME) == "org.mapstruct.ValueMapping"
    ensures MAPPINGS_FQ_NAME == Qualified(MAPPINGS_SIMPLE_NAME) == "org.mapstruct.Mappings"
    ensures TARGET_TYPE_FQ_NAME == Qualified("TargetType")
    ensures MAPPING_TARGET_FQ_NAME == Qualified("MappingTarget")
  {
  }

  /** The four simple names are pairwise distinct, and so are the four qualified names built from them. */
  lemma NamesDistinct()
    ensures |{MAPPER_SIMPLE_NAME, MAPPING_SIMPLE_NAME, VALUE_MAPPING_SIMPLE_NAME, MAPPINGS_SIMPLE_NAME}| == 4
    ensures |{MAPPER_FQ_NAME, MAPPING_FQ_NAME, VALUE_MAPPING_FQ_NAME, MAPPINGS_FQ_NAME}| == 4
    ensures |{MAPPING_MEMBER_SOURCE, MAPPING_MEMBER_TARGET, MAPPING_MEMBER_IGNORE}| == 3
  {
    var simple := [MAPPER_SIMPLE_NAME, MAPPING_SIMPLE_NAME, VALUE_MAPPING_SIMPLE_NAME, MAPPINGS_SIMPLE_NAME];
    assert forall i, j :: 0 <= i < j < 4 ==> simple[i] != simple[j] by {
      assert |simple[0]| == 6 && |simple[1]| == 7 && |simple[2]| == 12 && |simple[3]| == 8;
    }
    forall i, j | 0 <= i < j < 4 ensures Qualified(simple[i]) != Qualified(simple[j]) {
      QualifiedInjective(simple[i], simple[j]);
    }
  }
}
