#!/usr/bin/env python3
"""Translate the machine-generated FAST decision nests into Dafny trees.

usage: generate_trees.py <directory of the fast_neon package> <output directory>

Writes Fast9Tree.dfy, Fast10Tree.dfy and ArcHeaders.dfy. Every `if` of the C++ text
becomes one Bright or Dark node; large nests are cut into parts, and each part gets a
lemma whose precondition is what the path from the root to it has established.
"""
import re
import sys
import textwrap

OFFSETS = [(0, 3), (1, 3), (2, 2), (3, 1), (3, 0), (3, -1), (2, -2), (1, -3),
           (0, -3), (-1, -3), (-2, -2), (-3, -1), (-3, 0), (-3, 1), (-2, 2), (-1, 3)]


def tokens(lines, first, last, patterns):
    """Tokens (kind, pixel, line number) of source lines first..last."""
    out = []
    skip = re.compile(r'\s+|//.*')
    for number in range(first, last + 1):
        text, pos = lines[number - 1], 0
        while pos < len(text):
            m = skip.match(text, pos)
            if m is None:
                for kind, pattern in patterns:
                    m = re.compile(pattern).match(text, pos)
                    if m:
                        out.append((kind, m.groups()[0] if m.groups() else None, number))
                        break
                else:
                    raise SystemExit('line %d: cannot read %r' % (number, text[pos:]))
            pos = m.end()
    return out


def nest(toks):
    """Parse `if(test) S else S` into ('leaf' | (side, pixel, yes, no, line))."""
    pos = 0

    def statement():
        nonlocal pos
        kind, pixel, line = toks[pos]
        pos += 1
        if kind in ('Accept', 'Reject'):
            return kind
        yes = statement()
        if toks[pos][0] != 'else':
            raise SystemExit('line %d: else expected' % toks[pos][2])
        pos += 1
        return (kind, int(pixel), yes, statement(), line)

    tree = statement()
    assert pos == len(toks)
    return tree


def between(lines, start, stop):
    first = next(i for i, text in enumerate(lines) if start in text) + 2
    last = max(i for i, text in enumerate(lines) if stop in text) + 1
    return first, last


def read(path):
    with open(path, encoding='utf-8', errors='replace') as f:
        return f.read().split('\n')


def fast_9(root):
    lines = read(root + '/src/fast_9.cpp')
    first, last = between(lines, 'c_b= *p - barrier', 'continue;')
    test = r'if\(p\[pixel\[(\d+)\]\] %s\)'
    return nest(tokens(lines, first, last, [
        ('else', r'else\b'), ('Bright', test % '> cb'), ('Dark', test % '< c_b'),
        ('Accept', r'\{\}'), ('Reject', r'continue;')]))


def fast_10(root):
    lines = [text.replace('(cache_0 + 3)', '(cache_0 + pixel[4])').replace('(cache_0 + -3)', '(cache_0 + pixel[12])')
             for text in read(root + '/src/fast_10.cpp')]
    first, last = between(lines, 'c_b= *cache_0 - barrier', 'continue;')
    test = r'if\(\*\(cache_0 \+ pixel\[(\d+)\]\) %s\)'
    return nest(tokens(lines, first, last, [
        ('else', r'else\b'), ('Bright', test % '> cb'), ('Dark', test % '< c_b'),
        ('Accept', r'goto success;'), ('Reject', r'continue;')]))


def fast_10_score(root):
    lines = read(root + '/src/fast_10_score.cpp')
    first, last = between(lines, 'int min_diff = INT_MAX', 'break;')
    pixel = r'\*\(cache_0 \+ offset\[(\d+)\]\)'
    return nest(tokens(lines, first, last, [
        ('else', r'else\b'),
        ('Bright', r'if\(test_gt_set\(' + pixel + r', cb, min_diff\)\)'),
        ('Dark', r'if\(test_gt_set\(c_b, ' + pixel + r', min_diff\)\)'),
        ('Accept', r'b \+= min_diff;'), ('Reject', r'break;')]))


def same(a, b):
    if isinstance(a, str) or isinstance(b, str):
        return a == b
    return a[:2] == b[:2] and same(a[2], b[2]) and same(a[3], b[3])


def pixel_of(offset):
    """Circle pixel named by an offset expression such as `-2+2*w`."""
    dx = dy = 0
    for sign, term in re.findall(r'([+-]?)([^+-]+)', offset.replace(' ', '')):
        s = -1 if sign == '-' else 1
        if term == 'w3':
            dy += 3 * s
        elif term == 'w':
            dy += s
        elif term.endswith('*w'):
            dy += s * int(term[:-2])
        else:
            dx += s * int(term)
    return OFFSETS.index((dx, dy))


def header(root, n):
    """is_corner_<n>: `if (!eval(p[o], t)) { no } yes`, with returns at the leaves."""
    lines = read('%s/include/fast/corner_%d.h' % (root, n))
    first = next(i for i, text in enumerate(lines) if 'prep_t(*p, barrier)' in text) + 2
    toks = tokens(lines, first, len(lines), [
        ('test', r'if \(!C::eval\(p\[([^\]]*)\],t\)\) \{'),
        ('Accept', r'return true;'), ('Reject', r'return false;'), ('close', r'\}')])
    pos = 0

    def block():
        nonlocal pos
        kind, offset, line = toks[pos]
        pos += 1
        if kind != 'test':
            return kind
        no = block()
        assert toks[pos][0] == 'close'
        pos += 1
        return ('Bright', pixel_of(offset), block(), no, line)

    return block()


def parts(tree, limit):
    """Cut a tree into parts of at least `limit` nodes, innermost first."""
    found = []

    def cut(t, path):
        if isinstance(t, str):
            return t, 0
        side, k, yes, no, line = t
        yes, a = cut(yes, path + ((side, k, True),))
        no, b = cut(no, path + ((side, k, False),))
        t = (side, k, yes, no, line)
        if a + b + 1 >= limit or path == ():
            found.append((t, path))
            return ('part', len(found) - 1), 1
        return t, a + b + 1

    cut(tree, ())
    return found


def term(t, prefix):
    if isinstance(t, str):
        return t
    if t[0] == 'part':
        return '%sPart%d()' % (prefix, t[1])
    return '%s(%d, %s, %s)' % (t[0], t[1], term(t[2], prefix), term(t[3], prefix))


def refers(t):
    if isinstance(t, str):
        return []
    if t[0] == 'part':
        return [t[1]]
    return refers(t[2]) + refers(t[3])


def facts(path):
    return ' && '.join(('' if passed else '!') + ('br' if side == 'Bright' else 'dk') + '[%d]' % k
                       for side, k, passed in path)


def wrap(text, indent):
    return '\n'.join(textwrap.wrap(text, 116, initial_indent=indent, subsequent_indent=indent,
                                   break_long_words=False, break_on_hyphens=False))


def emit(tree, source, limit, prefix, arc, ring):
    """Dafny text of a tree: one function and one lemma a part."""
    found = parts(tree, limit)
    out = []
    for i, (t, path) in enumerate(found):
        out.append('  // %s:%d' % (source, t[4]))
        out.append('  function %sPart%d(): Tree {\n%s\n  }\n' % (prefix, i, wrap(term(t, prefix), '    ')))
        out.append('  lemma %sPart%dDecides(br: seq<bool>, dk: seq<bool>)' % (prefix, i))
        out.append('    requires ' + ring)
        if path:
            out.append(wrap('requires ' + facts(path), '    '))
        out.append('    ensures Decide(%sPart%d(), br, dk) <==> %s' % (prefix, i, arc))
        out.append('  {')
        for j in refers(t):
            out.append(wrap('if %s { %sPart%dDecides(br, dk); }' % (facts(found[j][1][len(path):]), prefix, j), '    '))
        out.append('  }\n')
    return '\n'.join(out), len(found) - 1


def two_sided(name, doc, tree, source, n, limit):
    body, root = emit(tree, source, limit, '', 'Any%d(br) || Any%d(dk)' % (n, n), 'IsRing(br, dk)')
    return '''/** %s

    Generated by tools/generate_trees.py. */
module %s {
  import opened FastCircle
  import opened SegmentTree

%s
  /** The whole nest. */
  function Whole(): Tree {
    Part%d()
  }

  /** The nest computes the segment test for %d-arcs on every circle. */
  lemma WholeDecides()
    ensures DecidesSegment(Whole(), %d)
  {
    forall br, dk | IsRing(br, dk)
      ensures Decide(Whole(), br, dk) <==> SegmentHolds(br, dk, %d)
    {
      Part%dDecides(br, dk);
      Arc%dWrittenOut(br);
      Arc%dWrittenOut(dk);
    }
  }

  /** Running the nest on one circle. */
  method Run(br: seq<bool>, dk: seq<bool>) returns (corner: bool)
    requires IsRing(br, dk)
    ensures corner <==> SegmentHolds(br, dk, %d)
  {
    WholeDecides();
    corner := Decide(Whole(), br, dk);
  }
}
''' % (doc, name, body, root, n, n, n, root, n, n, n)


def headers(root, limit):
    out = ['''/** The one-sided tests `is_corner_9` and `is_corner_10`, which scan one side of the circle
    (`Less` or `Greater`) for an arc. Only Bright nodes occur; `br` is the chosen side.

    Generated by tools/generate_trees.py. */
module ArcHeaders {
  import opened FastCircle
  import opened SegmentTree
''']
    for n in (9, 10):
        name = 'Corner%d' % n
        body, top = emit(header(root, n), 'corner_%d.h' % n, limit, name, 'Any%d(br)' % n, '|br| == |dk| == 16')
        out.append(body)
        out.append('''  /** `is_corner_%d` finds an arc exactly when there is one. */
  lemma IsCorner%dExact(br: seq<bool>, dk: seq<bool>)
    requires |br| == |dk| == 16
    ensures Decide(%sPart%d(), br, dk) <==> HasArc(br, %d)
  {
    %sPart%dDecides(br, dk);
    Arc%dWrittenOut(br);
  }
''' % (n, n, name, top, n, name, top, n))
        out.append('''  /** `is_corner_%d` on the side that `br` gives. */
  method IsCorner%d(br: seq<bool>) returns (corner: bool)
    requires |br| == 16
    ensures corner <==> HasArc(br, %d)
  {
    var none := seq(16, _ => false);
    IsCorner%dExact(br, none);
    corner := Decide(%sPart%d(), br, none);
  }
''' % (n, n, n, n, name, top))
    return '\n'.join(out) + '}\n'


def main():
    root, target = sys.argv[1:3]
    limit = int(sys.argv[3]) if len(sys.argv) > 3 else 20
    ten = fast_10(root)
    if not same(ten, fast_10_score(root)):
        raise SystemExit('fast_10.cpp and fast_10_score.cpp differ')
    files = {
        'Fast9Tree.dfy': two_sided('Fast9Tree', 'The decision nest of `fast_corner_detect_9`.',
                                   fast_9(root), 'fast_9.cpp', 9, limit),
        'Fast10Tree.dfy': two_sided('Fast10Tree', 'The decision nest of `fast_corner_detect_10`. The nest of\n'
                                    '    `fast_corner_score_10` asks the same tests in the same order.',
                                    ten, 'fast_10.cpp', 10, limit),
        'ArcHeaders.dfy': headers(root, limit),
    }
    for name, text in files.items():
        with open(target + '/' + name, 'w', encoding='utf-8') as f:
            f.write(text)


main()
